/** The Upload custom resource: its record form, its marshalled form, and the proof that a JSON merge
    patch between two marshalled copies acts on the stored object field by field. */
module UploadResource {
  import opened Json

  type Time = int   // whole seconds, the granularity of a marshalled timestamp

  const MAX_INT32 := 0x7fff_ffff
  const MIN_INT32 := -0x8000_0000

  type Int32 = n: int | MIN_INT32 <= n <= MAX_INT32

  datatype Phase =
    Unset | New | InProgress | Completed | UploadError | CleanupFailed | Canceling | Canceled | FailedAfterRetry

  datatype Spec = Spec(snapshotID: string, uploadCancel: bool, backupRepository: string, snapshotReference: string)

  datatype Status = Status(
    phase: Phase, message: string, start: Option<Time>, completion: Option<Time>, node: string,
    retryCount: Int32, nextRetry: Option<Time>, backOff: Int32)

  datatype Upload = Upload(spec: Spec, status: Status)

  /** The phases on which deleteSnapshot goes ahead with the deletes. */
  predicate Terminal(p: Phase)
  {
    p == Completed || p == CleanupFailed || p == Canceled || p == FailedAfterRetry
  }

  // ---------------------------------------------------------------------------------------------
  // Marshalled form: empty fields are omitted
  // ---------------------------------------------------------------------------------------------

  function PhaseText(p: Phase): (r: string)
  {
    match p
    case Unset => ""
    case New => "New"
    case InProgress => "InProgress"
    case Completed => "Completed"
    case UploadError => "UploadError"
    case CleanupFailed => "CleanupFailed"
    case Canceling => "Canceling"
    case Canceled => "Canceled"
    case FailedAfterRetry => "UploadFailedAfterRetry"
  }

  lemma PhaseTextInjective(p: Phase, q: Phase)
    requires PhaseText(p) == PhaseText(q)
    ensures p == q
  {
    assert |PhaseText(p)| == |PhaseText(q)|;
    assert PhaseText(Completed)[1] != PhaseText(Canceling)[1];
  }

  function Text(s: string): (r: Option<Json>) { if s == "" then None else Some(Str(s)) }
  function Number(n: int): (r: Option<Json>) { if n == 0 then None else Some(Num(n)) }
  function Flag(b: bool): (r: Option<Json>) { if b then Some(Bool(true)) else None }
  function Stamp(t: Option<Time>): (r: Option<Json>) { if t.Some? then Some(Num(t.value)) else None }

  const STATUS_KEYS: set<string> := {"phase", "message", "startTimestamp", "completionTimestamp", "progress",
                                     "processingNode", "retryCount", "nextRetryTimestamp", "currentBackOff"}
  const SPEC_KEYS: set<string> := {"snapshotID", "uploadCancel", "backupRepository", "snapshotReference"}

  function StatusField(st: Status, k: string): (r: Option<Json>)
  {
    if k == "phase" then Text(PhaseText(st.phase))
    else if k == "message" then Text(st.message)
    else if k == "startTimestamp" then Stamp(st.start)
    else if k == "completionTimestamp" then Stamp(st.completion)
    else if k == "progress" then Some(Obj(map[]))
    else if k == "processingNode" then Text(st.node)
    else if k == "retryCount" then Number(st.retryCount)
    else if k == "nextRetryTimestamp" then Stamp(st.nextRetry)
    else if k == "currentBackOff" then Number(st.backOff)
    else None
  }

  function SpecField(sp: Spec, k: string): (r: Option<Json>)
  {
    if k == "snapshotID" then Text(sp.snapshotID)
    else if k == "uploadCancel" then Flag(sp.uploadCancel)
    else if k == "backupRepository" then Text(sp.backupRepository)
    else if k == "snapshotReference" then Text(sp.snapshotReference)
    else None
  }

  function StatusJson(st: Status): (j: Json)
  {
    Obj(map k | k in STATUS_KEYS && StatusField(st, k).Some? :: StatusField(st, k).value)
  }

  function SpecJson(sp: Spec): (j: Json)
  {
    Obj(map k | k in SPEC_KEYS && SpecField(sp, k).Some? :: SpecField(sp, k).value)
  }

  function UploadJson(u: Upload): (j: Json)
  {
    Obj(map["spec" := SpecJson(u.spec), "status" := StatusJson(u.status)])
  }

  // ---------------------------------------------------------------------------------------------
  // The same patch on records
  // ---------------------------------------------------------------------------------------------

  /** A field the writer changed takes the writer's value, any other keeps the stored one. */
  function Pick<T(==)>(before: T, after: T, stored: T): (r: T)
  {
    if before == after then stored else after
  }

  function PatchedStatus(a: Status, b: Status, s: Status): (r: Status)
  {
    Status(Pick(a.phase, b.phase, s.phase), Pick(a.message, b.message, s.message), Pick(a.start, b.start, s.start),
           Pick(a.completion, b.completion, s.completion), Pick(a.node, b.node, s.node),
           Pick(a.retryCount, b.retryCount, s.retryCount), Pick(a.nextRetry, b.nextRetry, s.nextRetry),
           Pick(a.backOff, b.backOff, s.backOff))
  }

  function PatchedSpec(a: Spec, b: Spec, s: Spec): (r: Spec)
  {
    Spec(Pick(a.snapshotID, b.snapshotID, s.snapshotID), Pick(a.uploadCancel, b.uploadCancel, s.uploadCancel),
         Pick(a.backupRepository, b.backupRepository, s.backupRepository),
         Pick(a.snapshotReference, b.snapshotReference, s.snapshotReference))
  }

  /** What the server stores after the patch computed from `before` and `after` reaches `stored`. */
  function Patched(before: Upload, after: Upload, stored: Upload): (r: Upload)
  {
    Upload(PatchedSpec(before.spec, after.spec, stored.spec), PatchedStatus(before.status, after.status, stored.status))
  }

  lemma StatusMember(st: Status, k: string)
    ensures Member(StatusJson(st), k) == StatusField(st, k)
    ensures k != "progress" && StatusField(st, k).Some? ==> !StatusField(st, k).value.Obj?
  {
  }

  lemma SpecMember(sp: Spec, k: string)
    ensures Member(SpecJson(sp), k) == SpecField(sp, k)
    ensures SpecField(sp, k).Some? ==> !SpecField(sp, k).value.Obj?
  {
  }

  /** Marshalling commutes with the pick, field by field: an omitted field is a value like any other. */
  lemma StatusFieldPick(a: Status, b: Status, s: Status, k: string)
    ensures StatusField(PatchedStatus(a, b, s), k) == Pick(StatusField(a, k), StatusField(b, k), StatusField(s, k))
  {
    if k == "phase" && PhaseText(a.phase) == PhaseText(b.phase) { PhaseTextInjective(a.phase, b.phase); }
  }

  lemma StatusPatchIsFieldwise(a: Status, b: Status, s: Status)
    ensures Apply(Diff(StatusJson(a), StatusJson(b)), StatusJson(s)) == StatusJson(PatchedStatus(a, b, s))
  {
    var ja, jb, js, want := StatusJson(a), StatusJson(b), StatusJson(s), StatusJson(PatchedStatus(a, b, s));
    StatusJsonNullFree(b);
    forall k
      ensures Member(want, k) == (if Member(ja, k) == Member(jb, k) then Member(js, k) else Member(jb, k))
      ensures Member(ja, k) != Member(jb, k) && k in jb.members ==> !jb.members[k].Obj?
    {
      StatusMember(a, k); StatusMember(b, k); StatusMember(s, k); StatusMember(PatchedStatus(a, b, s), k);
      StatusFieldPick(a, b, s, k);
    }
    ApplyDiffIsMemberwise(ja, jb, js, want);
  }

  lemma SpecPatchIsFieldwise(a: Spec, b: Spec, s: Spec)
    ensures Apply(Diff(SpecJson(a), SpecJson(b)), SpecJson(s)) == SpecJson(PatchedSpec(a, b, s))
  {
    var ja, jb, js, want := SpecJson(a), SpecJson(b), SpecJson(s), SpecJson(PatchedSpec(a, b, s));
    SpecJsonNullFree(b);
    forall k
      ensures Member(want, k) == (if Member(ja, k) == Member(jb, k) then Member(js, k) else Member(jb, k))
      ensures Member(ja, k) != Member(jb, k) && k in jb.members ==> !jb.members[k].Obj?
    {
      SpecMember(a, k); SpecMember(b, k); SpecMember(s, k); SpecMember(PatchedSpec(a, b, s), k);
    }
    ApplyDiffIsMemberwise(ja, jb, js, want);
  }

  /** The wire-level patch refines the record-level one, for every pair of copies and every stored object. */
  lemma MergePatchIsFieldwise(before: Upload, after: Upload, stored: Upload)
    ensures Apply(Diff(UploadJson(before), UploadJson(after)), UploadJson(stored))
            == UploadJson(Patched(before, after, stored))
  {
    var r := Apply(Diff(UploadJson(before), UploadJson(after)), UploadJson(stored));
    forall k ensures Member(r, k) == Member(UploadJson(Patched(before, after, stored)), k) {
      UploadMember(before, after, stored, k);
    }
    SameMembers(r, UploadJson(Patched(before, after, stored)));
  }

  lemma UploadMember(before: Upload, after: Upload, stored: Upload, k: string)
    ensures Member(Apply(Diff(UploadJson(before), UploadJson(after)), UploadJson(stored)), k)
            == Member(UploadJson(Patched(before, after, stored)), k)
  {
    var ja, jb, js := UploadJson(before), UploadJson(after), UploadJson(stored);
    UploadJsonNullFree(after);
    if k == "status" {
      ApplyDiffInside(ja, jb, js, k);
      StatusPatchIsFieldwise(before.status, after.status, stored.status);
    } else if k == "spec" {
      ApplyDiffInside(ja, jb, js, k);
      SpecPatchIsFieldwise(before.spec, after.spec, stored.spec);
    } else {
      ApplyDiffMember(ja, jb, js, k);
    }
  }

  lemma StatusJsonNullFree(st: Status)
    ensures NullFree(StatusJson(st))
  {
  }

  lemma SpecJsonNullFree(sp: Spec)
    ensures NullFree(SpecJson(sp))
  {
  }

  lemma UploadJsonNullFree(u: Upload)
    ensures NullFree(UploadJson(u))
  {
    StatusJsonNullFree(u.status);
    SpecJsonNullFree(u.spec);
  }

  lemma StatusJsonInjective(a: Status, b: Status)
    requires StatusJson(a) == StatusJson(b)
    ensures a == b
  {
    forall k ensures StatusField(a, k) == StatusField(b, k) {
      StatusMember(a, k); StatusMember(b, k);
    }
    assert StatusField(a, "phase") == StatusField(b, "phase");
    assert PhaseText(a.phase) == PhaseText(b.phase);
    PhaseTextInjective(a.phase, b.phase);
    assert StatusField(a, "message") == StatusField(b, "message");
    assert StatusField(a, "startTimestamp") == StatusField(b, "startTimestamp");
    assert StatusField(a, "completionTimestamp") == StatusField(b, "completionTimestamp");
    assert StatusField(a, "processingNode") == StatusField(b, "processingNode");
    assert StatusField(a, "retryCount") == StatusField(b, "retryCount");
    assert StatusField(a, "nextRetryTimestamp") == StatusField(b, "nextRetryTimestamp");
    assert StatusField(a, "currentBackOff") == StatusField(b, "currentBackOff");
  }

  lemma SpecJsonInjective(a: Spec, b: Spec)
    requires SpecJson(a) == SpecJson(b)
    ensures a == b
  {
    forall k ensures SpecField(a, k) == SpecField(b, k) {
      assert Member(SpecJson(a), k) == Member(SpecJson(b), k);
    }
    assert SpecField(a, "snapshotID") == SpecField(b, "snapshotID");
    assert SpecField(a, "uploadCancel") == SpecField(b, "uploadCancel");
    assert SpecField(a, "backupRepository") == SpecField(b, "backupRepository");
    assert SpecField(a, "snapshotReference") == SpecField(b, "snapshotReference");
  }

  /** The server's object determines the record: nothing of it is lost by marshalling. */
  lemma UploadJsonInjective(a: Upload, b: Upload)
    requires UploadJson(a) == UploadJson(b)
    ensures a == b
  {
    assert Member(UploadJson(a), "status") == Member(UploadJson(b), "status");
    assert Member(UploadJson(a), "spec") == Member(UploadJson(b), "spec");
    StatusJsonInjective(a.status, b.status);
    SpecJsonInjective(a.spec, b.spec);
  }

  /** The names and values on the wire, as the resource definition gives them; an empty value is left out. */
  lemma WireForm(u: Upload)
    ensures var st := u.status;
            && Member(StatusJson(st), "message") == (if st.message == "" then None else Some(Str(st.message)))
            && Member(StatusJson(st), "startTimestamp")
               == (if st.start == None then None else Some(Num(st.start.value)))
            && Member(StatusJson(st), "completionTimestamp")
               == (if st.completion == None then None else Some(Num(st.completion.value)))
            && Member(StatusJson(st), "processingNode") == (if st.node == "" then None else Some(Str(st.node)))
            && Member(StatusJson(st), "retryCount") == (if st.retryCount == 0 then None else Some(Num(st.retryCount)))
            && Member(StatusJson(st), "nextRetryTimestamp")
               == (if st.nextRetry == None then None else Some(Num(st.nextRetry.value)))
            && Member(StatusJson(st), "currentBackOff") == (if st.backOff == 0 then None else Some(Num(st.backOff)))
    ensures Member(UploadJson(u), "spec") == Some(SpecJson(u.spec))
    ensures Member(UploadJson(u), "status") == Some(StatusJson(u.status))
  {
    StatusMember(u.status, "message");
  }

  lemma WireSpec(u: Upload)
    ensures var sp := u.spec;
            && Member(SpecJson(sp), "snapshotID") == (if sp.snapshotID == "" then None else Some(Str(sp.snapshotID)))
            && Member(SpecJson(sp), "uploadCancel") == (if sp.uploadCancel then Some(Bool(true)) else None)
            && Member(SpecJson(sp), "backupRepository")
               == (if sp.backupRepository == "" then None else Some(Str(sp.backupRepository)))
            && Member(SpecJson(sp), "snapshotReference")
               == (if sp.snapshotReference == "" then None else Some(Str(sp.snapshotReference)))
  {
    SpecMember(u.spec, "snapshotID");
  }

  lemma WirePhase(st: Status)
    ensures var p := Member(StatusJson(st), "phase");
            && (st.phase == Unset <==> p == None)
            && (st.phase == New ==> p == Some(Str("New")))
            && (st.phase == InProgress ==> p == Some(Str("InProgress")))
            && (st.phase == Completed ==> p == Some(Str("Completed")))
            && (st.phase == UploadError ==> p == Some(Str("UploadError")))
            && (st.phase == CleanupFailed ==> p == Some(Str("CleanupFailed")))
            && (st.phase == Canceling ==> p == Some(Str("Canceling")))
            && (st.phase == Canceled ==> p == Some(Str("Canceled")))
            && (st.phase == FailedAfterRetry ==> p == Some(Str("UploadFailedAfterRetry")))
  {}

  // ---------------------------------------------------------------------------------------------
  // The mutations
  // ---------------------------------------------------------------------------------------------

  const UPLOAD_MAX_BACKOFF := 60
  const MIN_RETRY := 0
  /** int32 value of an unbounded count. */
  function Wrap32(n: int): (r: Int32)
  {
    (n + 0x8000_0000) % 0x1_0000_0000 - 0x8000_0000
  }

  lemma Wrap32Step(n: int)
    ensures Wrap32(Wrap32(n) + 1) == Wrap32(n + 1)
    ensures Wrap32(n + 1) != Wrap32(n)
  {
  }

  function Pow2(n: nat): (r: nat)
    ensures r > n
  {
    if n == 0 then 1 else 2 * Pow2(n - 1)
  }

  /** Minutes until the next attempt after `retry` counted failures: 2^(retry-1), at most 60, as the
      int32 it is stored in. The exponent retry-1 is itself an int32 subtraction. */
  function BackOff(retry: Int32): (r: Int32)
  {
    var exponent := Wrap32(retry - 1);
    if exponent < 0 then 0
    else if Pow2(exponent) >= UPLOAD_MAX_BACKOFF then UPLOAD_MAX_BACKOFF
    else Pow2(exponent)
  }

  /** The phases patchUploadByStatus knows; any other is an error and patches nothing. */
  predicate Writable(to: Phase)
  {
    to != Unset && to != New
  }

  /** The in-place change patchUploadByStatus makes to its copy for a new phase. */
  function MutatedStatus(st: Status, to: Phase, now: Time, node: string, msg: string): (r: Status)
    requires Writable(to)
  {
    match to
    case InProgress =>
      var started := if st.phase == New then st.(start := Some(now), retryCount := MIN_RETRY) else st;
      started.(phase := InProgress, node := node)
    case UploadError =>
      Failed(st, UploadError, now, msg)
    case CleanupFailed =>
      Failed(st, CleanupFailed, now, msg)
    case _ =>
      st.(phase := to, completion := Some(now), message := msg)
  }

  function Failed(st: Status, to: Phase, now: Time, msg: string): (r: Status)
  {
    var retry := Wrap32(st.retryCount + 1);
    st.(phase := to, completion := Some(now), message := msg, retryCount := retry, backOff := BackOff(retry),
        nextRetry := Some(now + 60 * BackOff(retry)))
  }

  function Mutated(u: Upload, to: Phase, now: Time, node: string, msg: string): (r: Upload)
    requires Writable(to)
  {
    u.(status := MutatedStatus(u.status, to, now, node, msg))
  }

  /** The in-place change deleteSnapshot makes to request a cancel. */
  function CancelRequested(u: Upload, now: Time): (r: Upload)
  {
    u.(spec := u.spec.(uploadCancel := true),
       status := u.status.(start := Some(now), message := "Canceling on going upload to repository."))
  }

  /** A delete request changes neither the phase nor the retry accounting, whatever is stored; it sets the cancel flag
      and, where the copy agrees with the server, the start time and the message. */
  lemma CancelRequestKeepsProgress(req: Upload, now: Time, stored: Upload)
    ensures var r := Patched(req, CancelRequested(req, now), stored);
            && r.status.phase == stored.status.phase && r.status.retryCount == stored.status.retryCount
            && r.status.backOff == stored.status.backOff && r.status.nextRetry == stored.status.nextRetry
            && r.status.completion == stored.status.completion && r.status.node == stored.status.node
            && r.spec.snapshotID == stored.spec.snapshotID && r.spec.backupRepository == stored.spec.backupRepository
            && r.spec.snapshotReference == stored.spec.snapshotReference
            && (r.spec.uploadCancel <==> stored.spec.uploadCancel || !req.spec.uploadCancel)
            && (req.status.start == stored.status.start ==> r.status.start == Some(now))
            && (req.status.message == stored.status.message ==>
                  r.status.message == "Canceling on going upload to repository.")
  {
  }
}
