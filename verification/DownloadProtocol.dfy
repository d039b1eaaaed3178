/** The life of one Download resource at the granularity of API calls, and the restore call that waits
    for it. */
module DownloadProtocol {
  import opened Common
  import opened Json
  import opened Base64
  import opened SnapshotIds
  import opened DownloadResource

  type Node = string

  /** The program counter of processDownload with its in-memory copy. */
  datatype Run =
    | Getting
    | Patching(req: Download, w: Write)
    | Copying(req: Download)

  datatype History = History(
    returned: set<PeId>,          // IDs returned by successful copies
    everCompleted: bool,          // the stored phase has been Completed
    copies: nat,                  // calls of CopyFromRepo
    retryWrites: nat)             // stored writes that asked for Retry

  datatype State = State(server: Option<Download>, runs: map<Node, Run>, hist: History)

  datatype Event =
    | GetOk
    | Fails                       // an API call failed, the target ID does not parse, or polling timed out
    | PatchAttempt(now: Time, msg: string, d: Delivery)
    | CopyOk(id: PeId)
    | CopyFails

  datatype Action =
    | StartRun(n: Node)           // from a cached value of any age
    | OfRun(n: Node, e: Event)
    | Crash(n: Node)
    | RemoveResource              // clean-up window of a completed download

  /** The entity a copy may return: the target when one is given, else a new one. */
  predicate CopyResult(req: Download, id: PeId)
  {
    id.WellFormed() && (req.spec.protectedEntityID != "" ==> Parse(req.spec.protectedEntityID) == Ok(id))
  }

  predicate RunEnabled(s: State, run: Run, e: Event)
  {
    match e
    case GetOk => run.Getting? && s.server.Some?
    case Fails => true
    case PatchAttempt(_, _, _) => run.Patching?
    case CopyOk(id) => run.Copying? && CopyResult(run.req, id)
    case CopyFails => run.Copying?
  }

  predicate Enabled(s: State, a: Action)
  {
    match a
    case StartRun(n) => n !in s.runs
    case OfRun(n, e) => n in s.runs && RunEnabled(s, s.runs[n], e)
    case Crash(_) => true
    case RemoveResource => s.hist.everCompleted
  }

  /** After the InProgress write: an ID that does not parse is recorded, otherwise the copy is called. */
  function Proceed(req: Download): (r: Run)
  {
    if Parse(req.spec.snapshotID).Err? then Patching(req, ToRetry) else Copying(req)
  }

  function AfterGet(u: Download): (r: Option<Run>)
  {
    if u.status.phase == Completed then None
    else if u.status.phase != InProgress then Some(Patching(u, ToInProgress))
    else Some(Proceed(u))
  }

  predicate Reaches(s: State, d: Delivery) { s.server.Some? && d != Refused }

  function PatchWrites(run: Run, n: Node, now: Time, msg: string, stored: Download): (u: Download)
    requires run.Patching?
  {
    stored.(status := Patched(run.req.status, Mutated(run.req.status, run.w, now, n, msg), stored.status))
  }

  function NextRun(s: State, n: Node, run: Run, e: Event): (r: Option<Run>)
    requires RunEnabled(s, run, e)
  {
    match e
    case GetOk => AfterGet(s.server.value)
    case Fails => None
    case PatchAttempt(now, msg, d) =>
      if !Reaches(s, d) || d == ReplyLost then
        Some(Patching(run.req.(status := Mutated(run.req.status, run.w, now, n, msg)), run.w))
      else if run.w.ToInProgress? then Some(Proceed(PatchWrites(run, n, now, msg, s.server.value)))
      else None
    case CopyOk(id) => Some(Patching(run.req, ToCompleted(Print(id))))
    case CopyFails => Some(Patching(run.req, ToRetry))
  }

  function NextServer(s: State, n: Node, run: Run, e: Event): (r: Option<Download>)
    requires RunEnabled(s, run, e)
  {
    if e.PatchAttempt? && Reaches(s, e.d) then Some(PatchWrites(run, n, e.now, e.msg, s.server.value)) else s.server
  }

  function NextHistory(s: State, run: Run, e: Event, server': Option<Download>, next: Option<Run>): (r: History)
    requires RunEnabled(s, run, e)
  {
    var h := s.hist;
    h.(returned := if e.CopyOk? then h.returned + {e.id} else h.returned,
       everCompleted := h.everCompleted || (server'.Some? && server'.value.status.phase == Completed),
       copies := if !run.Copying? && next.Some? && next.value.Copying? then h.copies + 1 else h.copies,
       retryWrites := if e.PatchAttempt? && Reaches(s, e.d) && run.w.ToRetry? then h.retryWrites + 1 else h.retryWrites)
  }

  function DoRun(s: State, n: Node, e: Event): (r: State)
    requires n in s.runs && RunEnabled(s, s.runs[n], e)
  {
    var next := NextRun(s, n, s.runs[n], e);
    var server' := NextServer(s, n, s.runs[n], e);
    State(server', if next.Some? then s.runs[n := next.value] else s.runs - {n},
          NextHistory(s, s.runs[n], e, server', next))
  }

  function Do(s: State, a: Action): (r: State)
    requires Enabled(s, a)
  {
    match a
    case StartRun(n) => s.(runs := s.runs[n := Getting])
    case OfRun(n, e) => DoRun(s, n, e)
    case Crash(n) => s.(runs := s.runs - {n})
    case RemoveResource => s.(server := None)
  }

  // ---------------------------------------------------------------------------------------------
  // Executions
  // ---------------------------------------------------------------------------------------------

  predicate Init(s: State)
  {
    && s.server.Some? && s.server.value.status.phase == New && s.server.value.status.retryCount == 0
    && s.server.value.status.volumeID == ""
    && s == State(s.server, map[], History({}, false, 0, 0))
  }

  ghost predicate Execution(states: seq<State>, acts: seq<Action>)
  {
    && |states| == |acts| + 1
    && Init(states[0])
    && forall i :: 0 <= i < |acts| ==> Enabled(states[i], acts[i]) && states[i + 1] == Do(states[i], acts[i])
  }

  /** One more step. */
  lemma Extended(states: seq<State>, acts: seq<Action>, a: Action) returns (states': seq<State>, acts': seq<Action>)
    requires Execution(states, acts) && Enabled(states[|acts|], a)
    ensures Execution(states', acts') && states'[|acts'|] == Do(states[|acts|], a)
    ensures states' == states + [Do(states[|acts|], a)] && acts' == acts + [a]
  {
    states', acts' := states + [Do(states[|acts|], a)], acts + [a];
  }

  predicate OneRun(s: State, a: Action) { a.StartRun? ==> s.runs == map[] }

  ghost predicate LeaseHolds(states: seq<State>, acts: seq<Action>)
    requires |states| == |acts| + 1
  {
    forall i :: 0 <= i < |acts| ==> OneRun(states[i], acts[i])
  }

  predicate PatchesOnce(a: Action) { a.OfRun? && a.e.PatchAttempt? ==> a.e.d == Accepted }

  // ---------------------------------------------------------------------------------------------
  // The retry count never passes the limit by more than one
  // ---------------------------------------------------------------------------------------------

  ghost predicate CountInv(s: State)
  {
    && (s.server.Some? ==> s.server.value.status.retryCount <= DOWNLOAD_MAX_RETRY + 1)
    && forall n :: n in s.runs && !s.runs[n].Getting? ==> s.runs[n].req.status.retryCount <= DOWNLOAD_MAX_RETRY + 1
  }

  lemma CountInvStep(s: State, a: Action)
    requires CountInv(s) && Enabled(s, a)
    ensures CountInv(Do(s, a))
  {
  }

  /** In every interleaving, overlapping runs and repeated attempts included. */
  lemma {:induction false} RetryCountBounded(states: seq<State>, acts: seq<Action>, i: nat)
    requires Execution(states, acts) && i < |states|
    ensures CountInv(states[i])
    ensures states[i].server.Some? ==> states[i].server.value.status.retryCount <= DOWNLOAD_MAX_RETRY + 1
  {
    if i == 0 {
    } else {
      RetryCountBounded(states, acts, i - 1);
      CountInvStep(states[i - 1], acts[i - 1]);
    }
  }

  /** With one run at a time and patches accepted at once, the copies of runs are current. */
  ghost predicate RetryInv(s: State)
  {
    && (forall n, m :: n in s.runs && m in s.runs ==> n == m)
    && (s.server.Some? ==>
          && s.server.value.status.retryCount == Min(s.hist.retryWrites, DOWNLOAD_MAX_RETRY + 1)
          && (s.server.value.status.phase == New ==> s.hist.retryWrites == 0)
          && forall n :: n in s.runs && !s.runs[n].Getting? ==>
               && s.runs[n].req.status.retryCount == s.server.value.status.retryCount
               && (s.runs[n].req.status.phase == New ==> s.hist.retryWrites == 0)
               && (s.server.value.status.phase == New ==> s.runs[n].req.status.phase == New)
               && (s.runs[n].Copying? || !s.runs[n].w.ToInProgress? ==> s.runs[n].req.status.phase == InProgress)
               && (s.runs[n].Patching? && s.runs[n].w.ToInProgress? ==> s.runs[n].req.status.phase != InProgress))
  }

  lemma RetryInvStep(s: State, a: Action)
    requires RetryInv(s) && Enabled(s, a) && OneRun(s, a) && PatchesOnce(a)
    ensures RetryInv(Do(s, a))
  {
  }

  lemma {:induction false} RetryInvReached(states: seq<State>, acts: seq<Action>, i: nat)
    requires Execution(states, acts) && LeaseHolds(states, acts) && i < |states|
    requires forall k :: 0 <= k < |acts| ==> PatchesOnce(acts[k])
    ensures RetryInv(states[i])
  {
    if i == 0 {
    } else {
      RetryInvReached(states, acts, i - 1);
      assert OneRun(states[i - 1], acts[i - 1]) && PatchesOnce(acts[i - 1]);
      RetryInvStep(states[i - 1], acts[i - 1]);
    }
  }

  /** The first DOWNLOAD_MAX_RETRY+1 failures are stored as Retry and every later one as Failed. */
  lemma FailedAtTheSeventh(states: seq<State>, acts: seq<Action>, i: nat)
    requires Execution(states, acts) && LeaseHolds(states, acts) && i < |acts|
    requires forall k :: 0 <= k < |acts| ==> PatchesOnce(acts[k])
    requires acts[i].OfRun? && acts[i].e.PatchAttempt? && states[i].runs[acts[i].n].w.ToRetry?
    requires states[i].server.Some?
    ensures states[i + 1].hist.retryWrites == states[i].hist.retryWrites + 1
    ensures states[i + 1].server.Some?
    ensures states[i + 1].server.value.status.phase
            == (if states[i + 1].hist.retryWrites >= DOWNLOAD_MAX_RETRY + 2 then Failed else Retry)
  {
    RetryInvReached(states, acts, i);
    assert Enabled(states[i], acts[i]) && states[i + 1] == Do(states[i], acts[i]);
  }

  // ---------------------------------------------------------------------------------------------
  // Restore result provenance
  // ---------------------------------------------------------------------------------------------

  /** `volume` is the printed ID of an entity a copy returned: the target entity when one was requested. */
  ghost predicate FromCopy(s: State, spec: Spec, volume: Bytes)
  {
    exists p :: p in s.hist.returned && p.WellFormed() && volume == Print(p)
                && (spec.protectedEntityID != "" ==> Parse(spec.protectedEntityID) == Ok(p))
  }

  predicate RunOk(s: State, run: Run)
  {
    run.Getting? || s.server.None? ||
    (&& run.req.spec == s.server.value.spec
     && (run.req.status.phase != Completed ==> run.req.status.volumeID == "")
     && (run.req.status.phase == Completed ==>
           run.Patching? && run.w.ToCompleted? && run.req.status.volumeID == run.w.volume))
  }

  /** While nothing is completed no volume is stored; afterwards the one run left is the one repeating its write. */
  ghost predicate ProvenanceInv(s: State)
  {
    && (forall n, m :: n in s.runs && m in s.runs ==> n == m)
    && (forall n :: n in s.runs ==> RunOk(s, s.runs[n]))
    && (forall n :: n in s.runs && s.runs[n].Patching? && s.runs[n].w.ToCompleted? && s.server.Some? ==>
          FromCopy(s, s.server.value.spec, s.runs[n].w.volume))
    && (s.server.None? ==> s.hist.everCompleted)
    && (s.server.Some? && !s.hist.everCompleted ==>
          s.server.value.status.phase != Completed && s.server.value.status.volumeID == "")
    && (s.server.Some? && s.hist.everCompleted ==>
          s.server.value.status.phase == Completed && FromCopy(s, s.server.value.spec, s.server.value.status.volumeID))
    && (s.hist.everCompleted ==> forall n :: n in s.runs ==>
          || s.runs[n].Getting?
          || (&& s.runs[n].Patching? && s.runs[n].w.ToCompleted?
              && (s.server.Some? ==> s.runs[n].req.status.phase == Completed)))
  }

  lemma FromCopyGrows(s: State, r: State, spec: Spec, volume: Bytes)
    requires FromCopy(s, spec, volume) && s.hist.returned <= r.hist.returned
    ensures FromCopy(r, spec, volume)
  {
    var p :| p in s.hist.returned && p.WellFormed() && volume == Print(p)
             && (spec.protectedEntityID != "" ==> Parse(spec.protectedEntityID) == Ok(p));
    assert p in r.hist.returned;
  }

  lemma AllFromCopyGrow(s: State, r: State)
    requires s.hist.returned <= r.hist.returned
    ensures forall spec, volume :: FromCopy(s, spec, volume) ==> FromCopy(r, spec, volume)
  {
    forall spec, volume | FromCopy(s, spec, volume) ensures FromCopy(r, spec, volume) {
      FromCopyGrows(s, r, spec, volume);
    }
  }

  lemma ProvenanceInvPatch(s: State, n: Node, e: Event)
    requires ProvenanceInv(s) && n in s.runs && RunEnabled(s, s.runs[n], e) && e.PatchAttempt?
    ensures ProvenanceInv(DoRun(s, n, e))
  {
    var r := DoRun(s, n, e);
    AllFromCopyGrow(s, r);
  }

  lemma ProvenanceInvRun(s: State, n: Node, e: Event)
    requires ProvenanceInv(s) && n in s.runs && RunEnabled(s, s.runs[n], e) && !e.PatchAttempt?
    ensures ProvenanceInv(DoRun(s, n, e))
  {
    var r := DoRun(s, n, e);
    AllFromCopyGrow(s, r);
    if e.CopyOk? && s.server.Some? {
      assert e.id in r.hist.returned;
      assert FromCopy(r, s.server.value.spec, Print(e.id));
    }
  }

  lemma ProvenanceInvStep(s: State, a: Action)
    requires ProvenanceInv(s) && Enabled(s, a) && OneRun(s, a)
    ensures ProvenanceInv(Do(s, a))
  {
    match a
    case OfRun(n, e) => if e.PatchAttempt? { ProvenanceInvPatch(s, n, e); } else { ProvenanceInvRun(s, n, e); }
    case _ =>
      var r := Do(s, a);
      AllFromCopyGrow(s, r);
  }

  lemma {:induction false} ProvenanceInvReached(states: seq<State>, acts: seq<Action>, i: nat)
    requires Execution(states, acts) && LeaseHolds(states, acts) && i < |states|
    ensures ProvenanceInv(states[i])
  {
    if i == 0 {
    } else {
      ProvenanceInvReached(states, acts, i - 1);
      assert OneRun(states[i - 1], acts[i - 1]);
      ProvenanceInvStep(states[i - 1], acts[i - 1]);
    }
  }

  lemma CompletedStep(s: State, a: Action)
    requires ProvenanceInv(s) && Enabled(s, a) && s.hist.everCompleted
    ensures Do(s, a).hist.everCompleted && Do(s, a).hist.copies == s.hist.copies
    ensures Do(s, a).server.Some? ==>
              && s.server.Some? && Do(s, a).server.value.spec == s.server.value.spec
              && Do(s, a).server.value.status.volumeID == s.server.value.status.volumeID
  {
  }

  /** Completed is final: neither the phase nor the volume changes again, and no copy follows. */
  lemma {:induction false} CompletedIsFinal(states: seq<State>, acts: seq<Action>, i: nat, j: nat)
    requires Execution(states, acts) && LeaseHolds(states, acts) && i <= j < |states|
    requires states[i].server.Some? && states[i].server.value.status.phase == Completed
    ensures states[j].hist.everCompleted && states[j].hist.copies == states[i].hist.copies
    ensures forall n :: n in states[j].runs ==> !states[j].runs[n].Copying?
    ensures states[j].server.Some? ==>
              && states[j].server.value.status.phase == Completed
              && states[j].server.value.status.volumeID == states[i].server.value.status.volumeID
    decreases j
  {
    ProvenanceInvReached(states, acts, j);
    ProvenanceInvReached(states, acts, i);
    if i == j {
    } else {
      CompletedIsFinal(states, acts, i, j - 1);
      ProvenanceInvReached(states, acts, j - 1);
      CompletedStep(states[j - 1], acts[j - 1]);
    }
  }

  /** A completed download names an entity that a successful copy returned, and its text parses to that entity. */
  lemma CompletedNamesACopy(states: seq<State>, acts: seq<Action>, i: nat)
    requires Execution(states, acts) && LeaseHolds(states, acts) && i < |states|
    requires states[i].server.Some? && states[i].server.value.status.phase == Completed
    ensures var d := states[i].server.value;
            && Parse(d.status.volumeID).Ok? && Parse(d.status.volumeID).value in states[i].hist.returned
            && (d.spec.protectedEntityID != "" ==> Parse(d.spec.protectedEntityID) == Parse(d.status.volumeID))
  {
    ProvenanceInvReached(states, acts, i);
    var d := states[i].server.value;
    var p :| p in states[i].hist.returned && p.WellFormed() && d.status.volumeID == Print(p)
             && (d.spec.protectedEntityID != "" ==> Parse(d.spec.protectedEntityID) == Ok(p));
    ParsePrint(p);
  }

  datatype Restore = Restored(id: PeId) | RestoreFailed | StillWaiting

  const ZERO_ID := PeId("", "", "")

  /** A read that ends the polling. */
  predicate Decides(answer: Option<Download>)
  {
    answer.Some? && (answer.value.status.phase == Completed || answer.value.status.phase == Failed)
  }

  /** What the call makes of it: the volume if the download completed and its ID parses, else a failure. */
  predicate Decision(st: Status, r: Restore)
  {
    if st.phase == Completed && ':' in st.volumeID then r.Restored? && Parse(st.volumeID) == Ok(r.id)
    else r == RestoreFailed
  }

  /** CreateVolumeFromSnapshot from the creation of its Download on: poll the resource until it is completed or failed;
      the first such read decides. `answers` are those of the API server, None where a read failed. Without a velero
      namespace the call returns the zero ID and no error. */
  method CreateVolumeFromSnapshot(namespaceSet: bool, created: bool, answers: seq<Option<Download>>)
    returns (r: Restore)
    ensures !namespaceSet ==> r == Restored(PeId("", "", ""))
    ensures namespaceSet && !created ==> r == RestoreFailed
    ensures namespaceSet && created ==>
              if forall i :: 0 <= i < |answers| ==> !Decides(answers[i]) then r == StillWaiting
              else exists i :: 0 <= i < |answers| && Decides(answers[i]) && Decision(answers[i].value.status, r)
                               && forall k :: 0 <= k < i ==> !Decides(answers[k])
  {
    if !namespaceSet { return Restored(ZERO_ID); }
    if !created { return RestoreFailed; }
    var i := 0;
    while i < |answers|
      invariant 0 <= i <= |answers|
      invariant forall k :: 0 <= k < i ==> !Decides(answers[k])
    {
      if answers[i].Some? {
        var st := answers[i].value.status;
        if st.phase == Completed {
          var id := Parse(st.volumeID);
          if id.Ok? { return Restored(id.value); } else { return RestoreFailed; }
        } else if st.phase == Failed {
          return RestoreFailed;
        }
      }
      i := i + 1;
    }
    return StillWaiting;
  }

  /** Reads of one execution: answered read i shows what the server stored at time at[i]. */
  ghost predicate ReadsOf(states: seq<State>, answers: seq<Option<Download>>, at: seq<nat>)
  {
    && |at| == |answers|
    && forall i :: 0 <= i < |answers| && answers[i].Some? ==> at[i] < |states| && states[at[i]].server == answers[i]
  }

  lemma {:induction false} SpecNeverChanges(states: seq<State>, acts: seq<Action>, i: nat)
    requires Execution(states, acts) && i < |states| && states[i].server.Some?
    ensures states[0].server.Some? && states[i].server.value.spec == states[0].server.value.spec
  {
    if i == 0 {
    } else {
      assert Enabled(states[i - 1], acts[i - 1]) && states[i] == Do(states[i - 1], acts[i - 1]);
      SpecNeverChanges(states, acts, i - 1);
    }
  }

  /** What the restore call answers from its read i, its namespace being set, a copy of this download had returned by
      the time of that read; and it is the target entity if the download was created with one. */
  lemma RestoreReturnsACopy(states: seq<State>, acts: seq<Action>, answers: seq<Option<Download>>, at: seq<nat>,
                            i: nat, id: PeId)
    requires Execution(states, acts) && LeaseHolds(states, acts) && ReadsOf(states, answers, at)
    requires i < |answers| && answers[i].Some? && answers[i].value.status.phase == Completed
    requires Parse(answers[i].value.status.volumeID) == Ok(id)
    ensures at[i] < |states| && id in states[at[i]].hist.returned
    ensures var target := states[0].server.value.spec.protectedEntityID;
            target != "" ==> Parse(target) == Ok(id)
  {
    CompletedNamesACopy(states, acts, at[i]);
    SpecNeverChanges(states, acts, at[i]);
  }

  /** The run that recorded a completion at an earlier attempt ends, as after a success, when a later one is accepted,
      and the server keeps its old phase and volume. */
  lemma RepeatedCompletionIsLost(s: State, n: Node, now: Time, msg: string)
    requires n in s.runs && s.runs[n].Patching? && s.runs[n].w.ToCompleted? && s.server.Some?
    requires s.runs[n].req.status.phase == Completed && s.runs[n].req.status.volumeID == s.runs[n].w.volume
    ensures var r := DoRun(s, n, PatchAttempt(now, msg, Accepted));
            && n !in r.runs && r.server.Some?
            && r.server.value.status.phase == s.server.value.status.phase
            && r.server.value.status.volumeID == s.server.value.status.volumeID
  {}
}
