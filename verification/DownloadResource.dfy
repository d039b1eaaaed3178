/** The Download custom resource: its record and marshalled forms, the changes the controller makes to it, and what a
    patch attempt stores after earlier ones were rejected. */
module DownloadResource {
  import opened Json
  import opened Base64
  import U = UploadResource

  type Time = U.Time

  const DOWNLOAD_MAX_RETRY := 5
  const DOWNLOAD_BACKOFF := 5

  datatype Phase = Unset | New | InProgress | Retry | Completed | Failed

  datatype Spec = Spec(snapshotID: Bytes, protectedEntityID: Bytes, backupRepository: string)

  datatype Status = Status(
    phase: Phase, message: string, start: Option<Time>, completion: Option<Time>, node: string,
    retryCount: nat, nextRetry: Option<Time>, volumeID: Bytes)

  datatype Download = Download(spec: Spec, status: Status)

  // ---------------------------------------------------------------------------------------------
  // Marshalled form
  // ---------------------------------------------------------------------------------------------

  function PhaseText(p: Phase): (r: string)
  {
    match p
    case Unset => ""
    case New => "New"
    case InProgress => "InProgress"
    case Retry => "Retry"
    case Completed => "Completed"
    case Failed => "Failed"
  }

  lemma PhaseTextInjective(p: Phase, q: Phase)
    requires PhaseText(p) == PhaseText(q)
    ensures p == q
  {
    assert |PhaseText(p)| == |PhaseText(q)|;
  }

  const STATUS_KEYS: set<string> := {"volumeID", "phase", "message", "startTimestamp", "completionTimestamp",
                                     "progress", "processingNode", "retryCount", "nextRetryTimestamp"}
  const SPEC_KEYS: set<string> := {"snapshotID", "protectedEntityID", "backupRepositoryName"}

  function StatusField(st: Status, k: string): (r: Option<Json>)
  {
    if k == "volumeID" then U.Text(st.volumeID)
    else if k == "phase" then U.Text(PhaseText(st.phase))
    else if k == "message" then U.Text(st.message)
    else if k == "startTimestamp" then U.Stamp(st.start)
    else if k == "completionTimestamp" then U.Stamp(st.completion)
    else if k == "progress" then Some(Obj(map[]))
    else if k == "processingNode" then U.Text(st.node)
    else if k == "retryCount" then U.Number(st.retryCount)
    else if k == "nextRetryTimestamp" then U.Stamp(st.nextRetry)
    else None
  }

  function SpecField(sp: Spec, k: string): (r: Option<Json>)
  {
    if k == "snapshotID" then U.Text(sp.snapshotID)
    else if k == "protectedEntityID" then U.Text(sp.protectedEntityID)
    else if k == "backupRepositoryName" then U.Text(sp.backupRepository)
    else None
  }

  function StatusJson(st: Status): (j: Json)
  {
    Obj(map k | k in STATUS_KEYS && StatusField(st, k).Some? :: StatusField(st, k).value)
  }

  function SpecJson(sp: Spec): (j: Json)
  {
    Obj(map k | k in SPEC_KEYS && SpecField(sp, k).Some? :: SpecField(sp, k).value)
  }

  function DownloadJson(d: Download): (j: Json)
  {
    Obj(map["spec" := SpecJson(d.spec), "status" := StatusJson(d.status)])
  }

  /** What the server stores after the patch computed from two copies; no writer changes the spec. */
  function Patched(a: Status, b: Status, s: Status): (r: Status)
  {
    Status(U.Pick(a.phase, b.phase, s.phase), U.Pick(a.message, b.message, s.message),
           U.Pick(a.start, b.start, s.start),
           U.Pick(a.completion, b.completion, s.completion), U.Pick(a.node, b.node, s.node),
           U.Pick(a.retryCount, b.retryCount, s.retryCount), U.Pick(a.nextRetry, b.nextRetry, s.nextRetry),
           U.Pick(a.volumeID, b.volumeID, s.volumeID))
  }

  lemma StatusMember(st: Status, k: string)
    ensures Member(StatusJson(st), k) == StatusField(st, k)
    ensures k != "progress" && StatusField(st, k).Some? ==> !StatusField(st, k).value.Obj?
  {}

  lemma StatusFieldPick(a: Status, b: Status, s: Status, k: string)
    ensures StatusField(Patched(a, b, s), k) == U.Pick(StatusField(a, k), StatusField(b, k), StatusField(s, k))
  {
    if k == "phase" && PhaseText(a.phase) == PhaseText(b.phase) { PhaseTextInjective(a.phase, b.phase); }
  }

  lemma StatusJsonNullFree(st: Status)
    ensures NullFree(StatusJson(st))
  {}

  lemma SpecJsonNullFree(sp: Spec)
    ensures NullFree(SpecJson(sp))
  {}

  lemma StatusPatchIsFieldwise(a: Status, b: Status, s: Status)
    ensures Apply(Diff(StatusJson(a), StatusJson(b)), StatusJson(s)) == StatusJson(Patched(a, b, s))
  {
    var ja, jb, js, want := StatusJson(a), StatusJson(b), StatusJson(s), StatusJson(Patched(a, b, s));
    StatusJsonNullFree(b);
    forall k
      ensures Member(want, k) == (if Member(ja, k) == Member(jb, k) then Member(js, k) else Member(jb, k))
      ensures Member(ja, k) != Member(jb, k) && k in jb.members ==> !jb.members[k].Obj?
    {
      StatusMember(a, k); StatusMember(b, k); StatusMember(s, k); StatusMember(Patched(a, b, s), k);
      StatusFieldPick(a, b, s, k);
    }
    ApplyDiffIsMemberwise(ja, jb, js, want);
  }

  lemma DownloadMember(before: Download, after: Download, stored: Download, k: string)
    requires after.spec == before.spec
    ensures Member(Apply(Diff(DownloadJson(before), DownloadJson(after)), DownloadJson(stored)), k)
            == Member(DownloadJson(stored.(status := Patched(before.status, after.status, stored.status))), k)
  {
    var ja, jb, js := DownloadJson(before), DownloadJson(after), DownloadJson(stored);
    StatusJsonNullFree(after.status);
    SpecJsonNullFree(after.spec);
    if k == "status" {
      ApplyDiffInside(ja, jb, js, k);
      StatusPatchIsFieldwise(before.status, after.status, stored.status);
    } else {
      ApplyDiffMember(ja, jb, js, k);
    }
  }

  /** The wire-level patch of a changed status refines the record-level one. */
  lemma MergePatchIsFieldwise(before: Download, after: Download, stored: Download)
    requires after.spec == before.spec
    ensures Apply(Diff(DownloadJson(before), DownloadJson(after)), DownloadJson(stored))
            == DownloadJson(stored.(status := Patched(before.status, after.status, stored.status)))
  {
    var r := Apply(Diff(DownloadJson(before), DownloadJson(after)), DownloadJson(stored));
    var want := DownloadJson(stored.(status := Patched(before.status, after.status, stored.status)));
    forall k ensures Member(r, k) == Member(want, k) { DownloadMember(before, after, stored, k); }
    SameMembers(r, want);
  }

  // ---------------------------------------------------------------------------------------------
  // The mutations
  // ---------------------------------------------------------------------------------------------

  /** What a run asks patchDownloadByStatus to record. */
  datatype Write = ToInProgress | ToRetry | ToCompleted(volume: Bytes)

  /** The in-place change; past the limit a retry is recorded as a failure. */
  function Mutated(st: Status, w: Write, now: Time, node: string, msg: string): (r: Status)
  {
    match w
    case ToCompleted(volume) =>
      st.(phase := Completed, completion := Some(now), message := "Download completed", volumeID := volume)
    case ToRetry =>
      if st.retryCount > DOWNLOAD_MAX_RETRY then st.(phase := Failed, completion := Some(now), message := msg)
      else st.(phase := Retry, nextRetry := Some(now + 60 * DOWNLOAD_BACKOFF), retryCount := st.retryCount + 1,
               message := msg)
    case ToInProgress =>
      var started := if st.phase == New then st.(start := Some(now), retryCount := U.MIN_RETRY) else st;
      started.(phase := InProgress, node := node)
  }

  /** The copy after one in-place mutation per clock reading. */
  function Iterated(st: Status, w: Write, times: seq<Time>, node: string, msg: string): (r: Status)
  {
    if times == [] then st
    else Mutated(Iterated(st, w, times[..|times| - 1], node, msg), w, times[|times| - 1], node, msg)
  }

  /** The stored status when attempt |times| is the first accepted one. */
  function Written(st: Status, w: Write, times: seq<Time>, node: string, msg: string, stored: Status): (r: Status)
    requires times != []
  {
    Patched(Iterated(st, w, times[..|times| - 1], node, msg), Iterated(st, w, times, node, msg), stored)
  }

  /** A completion sets phase, volume and message, and the last clock reading as completion time. */
  lemma {:induction false} IteratedCompleted(st: Status, volume: Bytes, times: seq<Time>, node: string, msg: string)
    requires times != []
    ensures Iterated(st, ToCompleted(volume), times, node, msg)
            == Status(Completed, "Download completed", st.start, Some(times[|times| - 1]), st.node, st.retryCount,
                      st.nextRetry, volume)
    decreases |times|
  {
    var shorter := times[..|times| - 1];
    if shorter == [] {
    } else {
      IteratedCompleted(st, volume, shorter, node, msg);
    }
  }

  /** Marking a download in progress sets phase and node, and for a new one the start and a count of zero. */
  lemma {:induction false} IteratedInProgress(st: Status, times: seq<Time>, node: string, msg: string)
    requires times != []
    ensures Iterated(st, ToInProgress, times, node, msg)
            == Status(InProgress, st.message, if st.phase == New then Some(times[0]) else st.start, st.completion, node,
                      if st.phase == New then 0 else st.retryCount, st.nextRetry, st.volumeID)
    decreases |times|
  {
    var shorter := times[..|times| - 1];
    if shorter == [] {
    } else {
      IteratedInProgress(st, shorter, node, msg);
    }
  }

  /** Every attempt counts until the count is six, one past the limit, each asking for a retry five minutes later; from
      the next attempt on the copy says Failed, completed at the last clock reading. */
  lemma {:induction false} IteratedRetry(st: Status, times: seq<Time>, node: string, msg: string)
    requires st.retryCount <= 6 && times != []
    ensures var attempts, last := st.retryCount + |times|, times[|times| - 1];
            Iterated(st, ToRetry, times, node, msg)
            == if attempts <= 6 then
                 Status(Retry, msg, st.start, st.completion, st.node, attempts, Some(last + 300), st.volumeID)
               else
                 Status(Failed, msg, st.start, Some(last), st.node, 6,
                        if st.retryCount == 6 then st.nextRetry else Some(times[5 - st.retryCount] + 300), st.volumeID)
    decreases |times|
  {
    var shorter := times[..|times| - 1];
    if shorter == [] {
    } else {
      IteratedRetry(st, shorter, node, msg);
    }
  }

  /** A completion reaches the server only with the first attempt: a later accepted one leaves the stored phase, volume
      and message as they are. */
  lemma CompletedAttemptEffect(st: Status, volume: Bytes, times: seq<Time>, node: string, msg: string, stored: Status)
    requires times != []
    ensures var w := Written(st, ToCompleted(volume), times, node, msg, stored);
            && w.phase == (if |times| == 1 && st.phase != Completed then Completed else stored.phase)
            && w.volumeID == (if |times| == 1 && st.volumeID != volume then volume else stored.volumeID)
            && w.message == (if |times| == 1 && st.message != "Download completed" then "Download completed"
                             else stored.message)
            && w.retryCount == stored.retryCount && w.nextRetry == stored.nextRetry
            && w.start == stored.start && w.node == stored.node
            && (|times| == 1 && st.completion == stored.completion ==> w.completion == Some(times[0]))
  {
    IteratedCompleted(st, volume, times, node, msg);
    if |times| == 1 {
      assert times[..0] == [];
    } else {
      IteratedCompleted(st, volume, times[..|times| - 1], node, msg);
    }
  }

  /** The first attempt to record a failed copy: Retry and a retry five minutes later for the first six, then Failed. */
  lemma FirstRetryEffect(st: Status, now: Time, node: string, msg: string)
    requires st.retryCount <= 6
    ensures Written(st, ToRetry, [now], node, msg, st)
            == if st.retryCount <= 5 then
                 st.(phase := Retry, message := msg, retryCount := st.retryCount + 1, nextRetry := Some(now + 300))
               else st.(phase := Failed, message := msg, completion := Some(now))
  {
    assert [now][..0] == [];
    IteratedRetry(st, [now], node, msg);
  }

  /** A later accepted attempt to record a retry stores the count of all attempts, but a phase only where the copy
      turned from Retry to Failed; a later attempt to mark the download in progress stores nothing. */
  lemma LaterAttemptEffect(st: Status, times: seq<Time>, node: string, msg: string, stored: Status)
    requires |times| > 1 && st.retryCount <= 6
    ensures var w := Written(st, ToRetry, times, node, msg, stored);
            var attempts := st.retryCount + |times|;
            && w.retryCount == (if attempts <= 6 then attempts else stored.retryCount)
            && w.phase == (if attempts == 7 then Failed else stored.phase)
    ensures Written(st, ToInProgress, times, node, msg, stored) == stored
  {
    IteratedRetry(st, times, node, msg);
    IteratedRetry(st, times[..|times| - 1], node, msg);
    IteratedInProgress(st, times, node, msg);
    IteratedInProgress(st, times[..|times| - 1], node, msg);
  }

  // ---------------------------------------------------------------------------------------------
  // The wire form in the resource definition's own words
  // ---------------------------------------------------------------------------------------------

  /** The names and values on the wire; an empty value is left out. */
  lemma WireForm(d: Download)
    ensures var st := d.status;
            && Member(StatusJson(st), "volumeID") == (if st.volumeID == "" then None else Some(Str(st.volumeID)))
            && Member(StatusJson(st), "message") == (if st.message == "" then None else Some(Str(st.message)))
            && Member(StatusJson(st), "startTimestamp")
               == (if st.start == None then None else Some(Num(st.start.value)))
            && Member(StatusJson(st), "completionTimestamp")
               == (if st.completion == None then None else Some(Num(st.completion.value)))
            && Member(StatusJson(st), "processingNode") == (if st.node == "" then None else Some(Str(st.node)))
            && Member(StatusJson(st), "retryCount") == (if st.retryCount == 0 then None else Some(Num(st.retryCount)))
            && Member(StatusJson(st), "nextRetryTimestamp")
               == (if st.nextRetry == None then None else Some(Num(st.nextRetry.value)))
    ensures var sp := d.spec;
            && Member(SpecJson(sp), "snapshotID") == (if sp.snapshotID == "" then None else Some(Str(sp.snapshotID)))
            && Member(SpecJson(sp), "protectedEntityID")
               == (if sp.protectedEntityID == "" then None else Some(Str(sp.protectedEntityID)))
            && Member(SpecJson(sp), "backupRepositoryName")
               == (if sp.backupRepository == "" then None else Some(Str(sp.backupRepository)))
    ensures Member(DownloadJson(d), "spec") == Some(SpecJson(d.spec))
    ensures Member(DownloadJson(d), "status") == Some(StatusJson(d.status))
  {
    StatusMember(d.status, "message");
  }

  lemma WirePhase(st: Status)
    ensures var p := Member(StatusJson(st), "phase");
            && (st.phase == Unset <==> p == None)
            && (st.phase == New ==> p == Some(Str("New")))
            && (st.phase == InProgress ==> p == Some(Str("InProgress")))
            && (st.phase == Retry ==> p == Some(Str("Retry")))
            && (st.phase == Completed ==> p == Some(Str("Completed")))
            && (st.phase == Failed ==> p == Some(Str("Failed")))
  {}
}
