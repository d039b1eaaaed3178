/** Snapshot resources of the supervisor (or vanilla) and guest clusters, and the two hops on which upload
    phases travel to them: Upload to Snapshot by SnapshotReference, and supervisor Snapshot to guest
    Snapshot by the in-memory index svcSnapshotMap. Status updates carry the version they were read at. */
module PhaseMirror {
  import opened Json
  import opened Base64
  import opened SnapshotIds
  import U = UploadResource

  type Id = nat

  datatype Phase =
    Unset | New | InProgress | Snapshotted | SnapshotFailed | Uploading | Uploaded | UploadFailed
    | Canceling | Canceled | CleanupFailed | UploadFailedAfterRetry

  /** The phases a snapshot can have without an upload. */
  predicate Own(p: Phase) { p == Unset || p == New || p == Snapshotted || p == SnapshotFailed }

  /** The switch of syncUploadByKey. */
  function Image(p: U.Phase): (r: Option<Phase>)
  {
    match p
    case InProgress => Some(Uploading)
    case Completed => Some(Uploaded)
    case Canceled => Some(Canceled)
    case Canceling => Some(Canceling)
    case UploadError => Some(UploadFailed)
    case CleanupFailed => Some(CleanupFailed)
    case FailedAfterRetry => Some(UploadFailedAfterRetry)
    case Unset => None
    case New => None
  }

  /** The switch of syncSvcSnapshotByKey. */
  predicate Forwarded(p: Phase)
  {
    || p == Uploading || p == Uploaded || p == Canceled || p == Canceling
    || p == CleanupFailed || p == UploadFailed || p == SnapshotFailed
  }

  datatype Key = Sup(ns: Bytes, name: Bytes) | Guest(ns: Bytes, name: Bytes)

  predicate Named(k: Key) { ':' !in k.ns && ':' !in k.name && '/' !in k.ns && '/' !in k.name }

  datatype Snap = Snap(version: nat, phase: Phase, svc: Bytes)   // svc: SvcSnapshotName, "" when unset

  datatype UploadRec = UploadRec(ref: Bytes, phase: U.Phase)

  /** syncSnapshotByKey with createSnapshot: one at a time per key. */
  datatype Job =
    | Got(copy: Snap)
    | Synced(copy: Snap)          // and entered in the index
    | Calling
    | Writing(to: Phase, svc: Option<Bytes>)
    | Updating(to: Phase, svc: Option<Bytes>, copy: Snap)

  datatype Mirror =
    | Heard(src: Bytes, to: Phase)                          // read a supervisor snapshot, not yet looked up
    | Aimed(target: Key, src: Bytes, to: Phase)
    | Ready(target: Key, src: Bytes, to: Phase, copy: Snap)

  /** The snapshots of both clusters; a name that is gone is not used again. */
  datatype Store = Store(snaps: map<Key, Snap>, gone: set<Key>)

  datatype History = History(
    uploadHeld: set<(Key, U.Phase)>,  // phases held by an upload whose reference names the snapshot
    snapHeld: set<(Key, Phase)>,      // phases held by snapshots
    taken: set<Key>)                  // snapshots whose call of the snapshot manager returned a readable one

  datatype State = State(
    svcNs: Bytes,                     // the namespace of this guest cluster's supervisor snapshots
    uploads: map<Bytes, UploadRec>,
    store: Store,
    svcMap: map<Bytes, Bytes>,        // supervisor snapshot name -> "<guest namespace>:<guest name>"
    jobs: map<Key, Job>,
    mirrors: map<Id, Mirror>,
    hist: History,
    calls: multiset<Key>)             // calls of the snapshot manager's create

  datatype CallResult = CallFailed | Created(svc: Bytes, readable: bool)

  /** Steps of syncSnapshotByKey and createSnapshot for one snapshot. */
  datatype SyncEvent =
    | Gets
    | Indexes
    | Skips                                // not New, or cancelled
    | Rejects                              // a check before the call failed
    | Calls                                // of the snapshot manager
    | Returns(result: CallResult)
    | Reads
    | Writes
    | Lost                                 // API error or restart

  /** Steps of syncUploadByKey and syncSvcSnapshotByKey. */
  datatype MirrorEvent =
    | FromUploadKey(u: Bytes)
    | FromSvcKey(name: Bytes)
    | Lookup
    | ReadsTarget
    | WritesTarget
    | Ends

  datatype Action =
    | UploadChanges(u: Bytes, ref: Bytes, phase: U.Phase)
    | SnapshotCreated(k: Key, initial: Phase)
    | SnapshotDeleted(k: Key)
    | EntryDropped(svc: Bytes)             // delSnapshot, or restart
    | OfSync(k: Key, e: SyncEvent)
    | OfMirror(id: Id, m: MirrorEvent)

  // ---------------------------------------------------------------------------------------------
  // References and index entries
  // ---------------------------------------------------------------------------------------------

  function Reference(k: Key): (r: Bytes) { k.ns + "/" + k.name }

  /** syncUploadByKey: a reference names a snapshot only if it has exactly two parts. */
  function RefTarget(ref: Bytes): (r: Option<Key>)
  {
    var parts := Split(ref, '/');
    if |parts| == 2 then Some(Sup(parts[0], parts[1])) else None
  }

  function Entry(k: Key): (r: Bytes) { k.ns + ":" + k.name }

  /** syncSvcSnapshotByKey: the first two parts of the index entry. */
  function EntryTarget(entry: Bytes): (r: Key)
    requires ':' in entry
  {
    var parts := Split(entry, ':');
    Guest(parts[0], parts[1])
  }

  lemma ReferenceTarget(k: Key)
    requires Named(k)
    ensures RefTarget(Reference(k)) == Some(Sup(k.ns, k.name))
  {
    RefTargetIff(Reference(k), k.ns, k.name);
  }

  /** A reference names a supervisor snapshot if and only if it is its namespace and name around one slash. */
  lemma RefTargetIff(ref: Bytes, ns: Bytes, name: Bytes)
    ensures RefTarget(ref) == Some(Sup(ns, name)) <==> '/' !in ns && '/' !in name && ref == ns + "/" + name
  {
    TwoParts(ref, ns, name, '/');
    var parts := Split(ref, '/');
    if |parts| == 2 { assert parts == [parts[0], parts[1]]; }
  }

  lemma EntryRoundTrip(k: Key)
    requires Named(k) && k.Guest?
    ensures ':' in Entry(k) && EntryTarget(Entry(k)) == k
  {
    assert Entry(k)[|k.ns|] == ':';
    SplitAtSeparator(k.ns, k.name, ':');
    SplitAtom(k.name, ':');
  }

  // ---------------------------------------------------------------------------------------------
  // Steps
  // ---------------------------------------------------------------------------------------------

  function SetSnap(s: State, k: Key, snap: Snap): (r: State)
  {
    s.(store := s.store.(snaps := s.store.snaps[k := snap]),
       hist := s.hist.(snapHeld := s.hist.snapHeld + {(k, snap.phase)}))
  }

  function SetJob(s: State, k: Key, next: Option<Job>): (r: State)
  {
    s.(jobs := if next.Some? then s.jobs[k := next.value] else s.jobs - {k})
  }

  function SetMirror(s: State, id: Id, next: Option<Mirror>): (r: State)
  {
    s.(mirrors := if next.Some? then s.mirrors[id := next.value] else s.mirrors - {id})
  }

  /** Add the index entry of a guest snapshot that knows its supervisor snapshot, unless there is one. */
  function Indexed(svcMap: map<Bytes, Bytes>, k: Key, copy: Snap): (r: map<Bytes, Bytes>)
  {
    if k.Guest? && copy.svc != "" && copy.svc !in svcMap then svcMap[copy.svc := Entry(k)] else svcMap
  }

  /** createSnapshot after the call: the supervisor snapshot name is kept in the status fields even when
      reading the metadata fails afterwards. */
  function AfterCall(result: CallResult): (r: Job)
  {
    match result
    case CallFailed => Writing(SnapshotFailed, None)
    case Created(svc, readable) =>
      Writing(if readable then Snapshotted else SnapshotFailed, if svc == "" then None else Some(svc))
  }

  predicate SyncEnabled(s: State, k: Key, e: SyncEvent)
  {
    match e
    case Gets => k in s.store.snaps && k !in s.jobs
    case Indexes => k in s.jobs && s.jobs[k].Got?
    case Skips => k in s.jobs && s.jobs[k].Synced?
    case Rejects => k in s.jobs && s.jobs[k].Synced? && s.jobs[k].copy.phase == New
    case Calls => k in s.jobs && s.jobs[k].Synced? && s.jobs[k].copy.phase == New
    case Returns(_) => k in s.jobs && s.jobs[k].Calling?
    case Reads => k in s.jobs && s.jobs[k].Writing?
    case Writes => k in s.jobs && s.jobs[k].Updating?
    case Lost => k in s.jobs
  }

  /** updateSnapshotStatusPhase reads the latest object and stops if it already shows the phase. */
  function AfterRead(store: Store, k: Key, j: Job): (r: Option<Job>)
    requires j.Writing?
  {
    if k !in store.snaps || store.snaps[k].phase == j.to then None else Some(Updating(j.to, j.svc, store.snaps[k]))
  }

  /** The update is accepted only at the version it was read at. */
  predicate AtVersion(store: Store, k: Key, copy: Snap)
  {
    k in store.snaps && store.snaps[k].version == copy.version
  }

  function NextJob(s: State, k: Key, e: SyncEvent): (r: Option<Job>)
    requires SyncEnabled(s, k, e)
  {
    match e
    case Gets => Some(Got(s.store.snaps[k]))
    case Indexes => Some(Synced(s.jobs[k].copy))
    case Skips => None
    case Rejects => Some(Writing(SnapshotFailed, None))
    case Calls => Some(Calling)
    case Returns(result) => Some(AfterCall(result))
    case Reads => AfterRead(s.store, k, s.jobs[k])
    case Writes => None
    case Lost => None
  }

  function JobWrite(j: Job): (r: Snap)
    requires j.Updating?
  {
    Snap(j.copy.version + 1, j.to, j.svc.GetOr(j.copy.svc))
  }

  function DoSync(s: State, k: Key, e: SyncEvent): (r: State)
    requires SyncEnabled(s, k, e)
  {
    var stepped := SetJob(s, k, NextJob(s, k, e));
    match e
    case Indexes => stepped.(svcMap := Indexed(s.svcMap, k, s.jobs[k].copy))
    case Calls => stepped.(calls := s.calls + multiset{k})
    case Returns(result) =>
      var taken := if result.Created? && result.readable then {k} else {};
      stepped.(hist := s.hist.(taken := s.hist.taken + taken))
    case Writes => if AtVersion(s.store, k, s.jobs[k].copy) then SetSnap(stepped, k, JobWrite(s.jobs[k])) else stepped
    case _ => stepped
  }

  predicate MirrorEnabled(s: State, id: Id, e: MirrorEvent)
  {
    match e
    case FromUploadKey(u) => id !in s.mirrors && u in s.uploads
    case FromSvcKey(name) => id !in s.mirrors && Sup(s.svcNs, name) in s.store.snaps
    case Lookup => id in s.mirrors && s.mirrors[id].Heard?
    case ReadsTarget => id in s.mirrors && s.mirrors[id].Aimed?
    case WritesTarget => id in s.mirrors && s.mirrors[id].Ready?
    case Ends => id in s.mirrors
  }

  function UploadMirror(rec: UploadRec): (r: Option<Mirror>)
  {
    var target, image := RefTarget(rec.ref), Image(rec.phase);
    if target.Some? && image.Some? then Some(Aimed(target.value, "", image.value)) else None
  }

  function NextMirror(s: State, id: Id, e: MirrorEvent): (r: Option<Mirror>)
    requires MirrorEnabled(s, id, e)
  {
    match e
    case FromUploadKey(u) => UploadMirror(s.uploads[u])
    case FromSvcKey(name) =>
      var p := s.store.snaps[Sup(s.svcNs, name)].phase;
      if Forwarded(p) then Some(Heard(name, p)) else None
    case Lookup =>
      var m := s.mirrors[id];
      if m.src in s.svcMap && ':' in s.svcMap[m.src]
      then Some(Aimed(EntryTarget(s.svcMap[m.src]), m.src, m.to)) else None
    case ReadsTarget =>
      var m := s.mirrors[id];
      if m.target !in s.store.snaps || s.store.snaps[m.target].phase == m.to then None
      else Some(Ready(m.target, m.src, m.to, s.store.snaps[m.target]))
    case WritesTarget => None
    case Ends => None
  }

  function MirrorWrite(m: Mirror): (r: Snap)
    requires m.Ready?
  {
    m.copy.(version := m.copy.version + 1, phase := m.to)
  }

  function DoMirror(s: State, id: Id, e: MirrorEvent): (r: State)
    requires MirrorEnabled(s, id, e)
  {
    var stepped := SetMirror(s, id, NextMirror(s, id, e));
    if e.WritesTarget? && AtVersion(s.store, s.mirrors[id].target, s.mirrors[id].copy)
    then SetSnap(stepped, s.mirrors[id].target, MirrorWrite(s.mirrors[id])) else stepped
  }

  predicate Enabled(s: State, a: Action)
  {
    match a
    case UploadChanges(u, ref, _) => u in s.uploads ==> s.uploads[u].ref == ref
    case SnapshotCreated(k, phase) =>
      Named(k) && k !in s.store.snaps && k !in s.store.gone && (phase == Unset || phase == New)
    case SnapshotDeleted(k) => k in s.store.snaps
    case EntryDropped(_) => true
    case OfSync(k, e) => SyncEnabled(s, k, e)
    case OfMirror(id, e) => MirrorEnabled(s, id, e)
  }

  function Do(s: State, a: Action): (r: State)
    requires Enabled(s, a)
  {
    match a
    case UploadChanges(u, ref, phase) =>
      var held := if RefTarget(ref).Some? then {(RefTarget(ref).value, phase)} else {};
      s.(uploads := s.uploads[u := UploadRec(ref, phase)], hist := s.hist.(uploadHeld := s.hist.uploadHeld + held))
    case SnapshotCreated(k, phase) => SetSnap(s, k, Snap(0, phase, ""))
    case SnapshotDeleted(k) => s.(store := Store(s.store.snaps - {k}, s.store.gone + {k}))
    case EntryDropped(svc) => s.(svcMap := s.svcMap - {svc})
    case OfSync(k, e) => DoSync(s, k, e)
    case OfMirror(id, e) => DoMirror(s, id, e)
  }

  predicate Init(s: State)
  {
    s == Empty(s.svcNs)
  }

  function Empty(svcNs: Bytes): (s: State)
  {
    State(svcNs, map[], Store(map[], {}), map[], map[], map[], History({}, {}, {}), multiset{})
  }

  ghost predicate Execution(states: seq<State>, acts: seq<Action>)
  {
    && |states| == |acts| + 1
    && Init(states[0])
    && forall i :: 0 <= i < |acts| ==> Enabled(states[i], acts[i]) && states[i + 1] == Do(states[i], acts[i])
  }

  /** One more step. */
  lemma Extended(states: seq<State>, acts: seq<Action>, a: Action) returns (states': seq<State>, acts': seq<Action>)
    requires Execution(states, acts) && Enabled(states[|acts|], a)
    ensures Execution(states', acts') && states'[|acts'|] == Do(states[|acts|], a)
    ensures states' == states + [Do(states[|acts|], a)] && acts' == acts + [a]
  {
    states', acts' := states + [Do(states[|acts|], a)], acts + [a];
  }
}
