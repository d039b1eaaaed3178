/** The backup driver's sync handlers, call by call, with the in-memory index svcSnapshotMap: every behaviour of
    the code, whatever happens between two of its calls, is an execution of the mirroring protocol. */
module BackupDriver {
  import opened Common
  import opened Json
  import opened Base64
  import opened SnapshotIds
  import opened PhaseMirror
  import opened MirrorProvenance
  import opened SnapshotOnce

  lemma MirrorKeepsJobs(s: State, id: Id, e: MirrorEvent)
    requires MirrorEnabled(s, id, e)
    ensures DoMirror(s, id, e).jobs == s.jobs && DoMirror(s, id, e).calls == s.calls
  {}

  lemma ForeignKeepsJob(s: State, a: Action, k: Key)
    requires Enabled(s, a) && !(a.OfSync? && a.k == k)
    ensures k in Do(s, a).jobs <==> k in s.jobs
    ensures k in s.jobs ==> Do(s, a).jobs[k] == s.jobs[k]
    ensures Do(s, a).calls[k] == s.calls[k]
  {
    match a
    case OfSync(other, e) => SyncFrame(s, k, other, e);
    case OfMirror(id, e) => MirrorKeepsJobs(s, id, e);
    case _ =>
  }

  lemma SyncKeepsMirrors(s: State, k: Key, e: SyncEvent)
    requires SyncEnabled(s, k, e)
    ensures DoSync(s, k, e).mirrors == s.mirrors && DoSync(s, k, e).svcNs == s.svcNs
  {}

  lemma ForeignKeepsMirror(s: State, a: Action, id: Id)
    requires Enabled(s, a) && !(a.OfMirror? && a.id == id)
    ensures id in Do(s, a).mirrors <==> id in s.mirrors
    ensures id in s.mirrors ==> Do(s, a).mirrors[id] == s.mirrors[id]
    ensures Do(s, a).svcNs == s.svcNs
  {
    if a.OfSync? { SyncKeepsMirrors(s, a.k, a.e); }
  }

  /** How updateSnapshotStatusPhase ended; `latest` is the object it read. */
  datatype Update =
    Unread | Already(latest: Snap) | Conflict(latest: Snap) | Unwritten(latest: Snap) | Stored(latest: Snap)

  /** How createSnapshot ended: a check failed, or the snapshot manager returned `result`; and the status update. */
  datatype Creation = Rejected(update: Update) | Returned(result: CallResult, update: Update)

  /** How syncSnapshotByKey ended. */
  datatype SnapshotSync = NotRead | Gone | Left(snap: Snap) | Handled(snap: Snap, creation: Creation)

  /** How syncUploadByKey ended. */
  datatype UploadSync =
    | UploadNotRead
    | NoUpload
    | NoReference(rec: UploadRec)
    | NoChange(rec: UploadRec)
    | NoTarget(rec: UploadRec)
    | Mirrored(rec: UploadRec, target: Key, update: Update)

  /** How syncSvcSnapshotByKey ended. */
  datatype SvcSync =
    | SvcNotRead
    | NoSvcSnapshot
    | NotForwarded(phase: Phase)
    | NotIndexed(phase: Phase)
    | NoGuest(phase: Phase)
    | Passed(phase: Phase, guest: Key, update: Update)

  /** The phase a snapshot shows for each phase of its upload. */
  predicate Mirrors(up: U.Phase, p: Phase)
  {
    && (up == U.InProgress ==> p == Uploading)
    && (up == U.Completed ==> p == Uploaded)
    && (up == U.Canceled ==> p == Canceled)
    && (up == U.Canceling ==> p == Canceling)
    && (up == U.UploadError ==> p == UploadFailed)
    && (up == U.CleanupFailed ==> p == CleanupFailed)
    && (up == U.FailedAfterRetry ==> p == UploadFailedAfterRetry)
    && up != U.Unset && up != U.New
  }

  /** The phases a guest snapshot takes over from its supervisor snapshot. */
  predicate Passes(p: Phase)
  {
    p in {Uploading, Uploaded, Canceled, Canceling, CleanupFailed, UploadFailed, SnapshotFailed}
  }

  /** The snapshots after a mirroring step. */
  function SnapsAfter(s: State, id: Id, e: MirrorEvent): (r: map<Key, Snap>)
    requires MirrorEnabled(s, id, e)
  {
    if e.WritesTarget? && AtVersion(s.store, s.mirrors[id].target, s.mirrors[id].copy)
    then s.store.snaps[s.mirrors[id].target := MirrorWrite(s.mirrors[id])] else s.store.snaps
  }

  class Controller {
    var s: State
    ghost var states: seq<State>
    ghost var acts: seq<Action>

    ghost predicate Valid()
      reads this
    {
      Execution(states, acts) && s == states[|acts|]
    }

    constructor (svcNs: Bytes)
      ensures Valid() && s.svcNs == svcNs && s.svcMap == map[] && acts == []
    {
      s := Empty(svcNs);
      new;
      states, acts := [s], [];
    }

    function Job(k: Key): (r: Option<PhaseMirror.Job>)
      reads this
    {
      if k in s.jobs then Some(s.jobs[k]) else None
    }

    function Mirror(id: Id): (r: Option<PhaseMirror.Mirror>)
      reads this
    {
      if id in s.mirrors then Some(s.mirrors[id]) else None
    }

    method Step(a: Action)
      requires Valid() && Enabled(s, a)
      modifies this
      ensures Valid() && s == Do(old(s), a) && acts == old(acts) + [a] && states == old(states) + [s]
    {
      states, acts := Extended(states, acts, a);
      s := Do(s, a);
    }

    /** Any number of steps other than this key's sync. */
    method OthersThanSync(k: Key)
      requires Valid()
      modifies this
      ensures Valid() && old(acts) <= acts && Job(k) == old(Job(k)) && s.calls[k] == old(s.calls[k])
    {
      var n: nat := *;
      while n > 0
        invariant Valid() && old(acts) <= acts && Job(k) == old(Job(k)) && s.calls[k] == old(s.calls[k])
      {
        var a: Action := *;
        if Enabled(s, a) && !(a.OfSync? && a.k == k) {
          ForeignKeepsJob(s, a, k);
          Step(a);
        }
        n := n - 1;
      }
    }

    /** Any number of steps other than this mirroring job's. */
    method OthersThanMirror(id: Id)
      requires Valid()
      modifies this
      ensures Valid() && old(acts) <= acts && Mirror(id) == old(Mirror(id)) && s.svcNs == old(s.svcNs)
    {
      var n: nat := *;
      while n > 0
        invariant Valid() && old(acts) <= acts && Mirror(id) == old(Mirror(id)) && s.svcNs == old(s.svcNs)
      {
        var a: Action := *;
        if Enabled(s, a) && !(a.OfMirror? && a.id == id) {
          ForeignKeepsMirror(s, a, id);
          Step(a);
        }
        n := n - 1;
      }
    }

    method SyncStep(k: Key, e: SyncEvent)
      requires Valid() && SyncEnabled(s, k, e)
      modifies this
      ensures Valid() && old(acts) <= acts
      ensures Job(k) == NextJob(old(s), k, e)
      ensures s.calls[k] == old(s).calls[k] + (if e.Calls? then 1 else 0)
      ensures s.svcMap == if e.Indexes? then Indexed(old(s).svcMap, k, old(s).jobs[k].copy) else old(s).svcMap
      ensures s.store.snaps == if e.Writes? && AtVersion(old(s).store, k, old(s).jobs[k].copy)
                               then old(s).store.snaps[k := JobWrite(old(s).jobs[k])] else old(s).store.snaps
    {
      Step(OfSync(k, e));
    }

    method MirrorStep(id: Id, e: MirrorEvent)
      requires Valid() && MirrorEnabled(s, id, e)
      modifies this
      ensures Valid() && old(acts) <= acts && s.svcNs == old(s.svcNs)
      ensures Mirror(id) == NextMirror(old(s), id, e)
      ensures s.store.snaps == SnapsAfter(old(s), id, e)
    {
      Step(OfMirror(id, e));
    }

    // -------------------------------------------------------------------------------------------
    // Snapshots
    // -------------------------------------------------------------------------------------------

    /** updateSnapshotStatusPhase for a sync: read the latest object, update it at the version read. `readable` and
        `writable` say whether the calls get through. A phase already there ends the call without a write, and otherwise
        success stores exactly the phase and the supervisor name, if there is one, on top of what was read. */
    method UpdateSnapshotStatusPhase(k: Key, to: Phase, svc: Option<Bytes>, readable: bool, writable: bool)
      returns (v: Verdict, u: Update)
      requires Valid() && Job(k) == Some(Writing(to, svc))
      modifies this
      ensures Valid() && old(acts) <= acts && k !in s.jobs && s.calls[k] == old(s.calls[k])
      ensures v == NoError <==> u.Already? || u.Stored?
      ensures u.Unread? ==> !readable || k !in s.store.snaps
      ensures u.Already? ==> readable && k in s.store.snaps && s.store.snaps[k] == u.latest && u.latest.phase == to
      ensures u.Unwritten? ==> !writable
      ensures u.Conflict? ==> k !in s.store.snaps || s.store.snaps[k].version != u.latest.version
      ensures u.Stored? ==>
                && readable && writable && k in s.store.snaps && u.latest.phase != to
                && s.store.snaps[k] == Snap(u.latest.version + 1, to, if svc.Some? then svc.value else u.latest.svc)
    {
      OthersThanSync(k);
      if !readable {
        SyncStep(k, Lost);
        return Error, Unread;
      }
      var latest := if k in s.store.snaps then Some(s.store.snaps[k]) else None;
      SyncStep(k, Reads);
      if latest.None? { return Error, Unread; }
      if latest.value.phase == to { return NoError, Already(latest.value); }
      OthersThanSync(k);
      if !writable {
        SyncStep(k, Lost);
        return Error, Unwritten(latest.value);
      }
      var current := k in s.store.snaps && s.store.snaps[k].version == latest.value.version;
      SyncStep(k, Writes);
      if !current { return Error, Conflict(latest.value); }
      return NoError, Stored(latest.value);
    }

    /** `acceptable` stands for the checks before the call (the kind, the clients, the guest's backup repository) and
        `result` for what the snapshot manager returns. Only a call that returned a readable snapshot is recorded as
        Snapshotted and reported as a success; everything else asks for SnapshotFailed and is an error. The supervisor
        name is stored with either. */
    method CreateSnapshot(k: Key, copy: Snap, acceptable: bool, result: CallResult, readable: bool, writable: bool)
      returns (v: Verdict, c: Creation)
      requires Valid() && Job(k) == Some(Synced(copy)) && copy.phase == New
      modifies this
      ensures Valid() && old(acts) <= acts && k !in s.jobs
      ensures c.Rejected? <==> !acceptable
      ensures c.Returned? ==> c.result == result
      ensures s.calls[k] == old(s.calls[k]) + (if acceptable then 1 else 0)
      ensures v == NoError <==>
                && acceptable && result.Created? && result.readable
                && (c.update.Already? || c.update.Stored?)
      ensures c.update.Stored? || c.update.Already? ==>
                && k in s.store.snaps
                && (acceptable && result.Created? && result.readable ==> s.store.snaps[k].phase == Snapshotted)
                && (!acceptable || result.CallFailed? || !result.readable ==> s.store.snaps[k].phase == SnapshotFailed)
      ensures c.update.Stored? ==>
                s.store.snaps[k].svc == (if acceptable && result.Created? && result.svc != "" then result.svc
                                         else c.update.latest.svc)
    {
      OthersThanSync(k);
      if !acceptable {
        SyncStep(k, Rejects);
        var _, u := UpdateSnapshotStatusPhase(k, SnapshotFailed, None, readable, writable);
        return Error, Rejected(u);
      }
      SyncStep(k, Calls);
      OthersThanSync(k);
      SyncStep(k, Returns(result));
      match result {
        case CallFailed =>
          var _, u := UpdateSnapshotStatusPhase(k, SnapshotFailed, None, readable, writable);
          return Error, Returned(result, u);
        case Created(name, metadata) =>
          var svc := if name != "" then Some(name) else None;
          if !metadata {
            var _, u := UpdateSnapshotStatusPhase(k, SnapshotFailed, svc, readable, writable);
            return Error, Returned(result, u);
          }
          var written, u := UpdateSnapshotStatusPhase(k, Snapshotted, svc, readable, writable);
          return written, Returned(result, u);
      }
    }

    /** Add the index entry of a guest snapshot that knows its supervisor snapshot, unless there is one already. */
    method IndexSnapshot(k: Key, copy: Snap)
      requires Valid() && Job(k) == Some(Got(copy))
      modifies this
      ensures Valid() && old(acts) <= acts && Job(k) == Some(Synced(copy)) && s.calls == old(s.calls)
      ensures s.svcMap == if k.Guest? && copy.svc != "" && copy.svc !in old(s.svcMap)
                          then old(s.svcMap)[copy.svc := k.ns + ":" + k.name] else old(s.svcMap)
    {
      Step(OfSync(k, Indexes));
    }

    /** The queue hands out a key to one worker at a time. A snapshot read in phase New without a cancel request is
        handed to createSnapshot, and no other is; what createSnapshot returns is returned. */
    method SyncSnapshotByKey(k: Key, cancel: bool, read: bool, acceptable: bool, result: CallResult,
                             readable: bool, writable: bool)
      returns (v: Verdict, e: SnapshotSync)
      requires Valid() && k !in s.jobs
      modifies this
      ensures Valid() && old(acts) <= acts && k !in s.jobs
      ensures e.NotRead? <==> !read
      ensures e.NotRead? ==> v == Error
      ensures e.Gone? || e.Left? ==> v == NoError && s.calls[k] == old(s.calls[k])
      ensures e.Left? ==> e.snap.phase != New || cancel
      ensures e.Handled? ==> e.snap.phase == New && !cancel
      ensures e.Handled? ==> s.calls[k] == old(s.calls[k]) + (if acceptable then 1 else 0)
      ensures e.Handled? && v == NoError ==>
                && acceptable && result.Created? && result.readable
                && k in s.store.snaps && s.store.snaps[k].phase == Snapshotted
    {
      OthersThanSync(k);
      if !read { return Error, NotRead; }
      if k !in s.store.snaps { return NoError, Gone; }
      var snap := s.store.snaps[k];
      SyncStep(k, Gets);
      IndexSnapshot(k, snap);
      if snap.phase != New {
        SyncStep(k, Skips);
        DeleteExpired(k, snap);
        return NoError, Left(snap);
      }
      if cancel {
        SyncStep(k, Skips);
        return NoError, Left(snap);
      }
      var verdict, c := CreateSnapshot(k, snap, acceptable, result, readable, writable);
      return verdict, Handled(snap, c);
    }

    /** An uploaded snapshot is removed after the clean-up window. */
    method DeleteExpired(k: Key, snap: Snap)
      requires Valid() && k !in s.jobs
      modifies this
      ensures Valid() && old(acts) <= acts && k !in s.jobs && s.calls[k] == old(s.calls[k])
      ensures snap.phase != Uploaded ==> s == old(s)
    {
      var expired: bool := *;
      if snap.phase == Uploaded && expired && k in s.store.snaps {
        ForeignKeepsJob(s, SnapshotDeleted(k), k);
        Step(SnapshotDeleted(k));
      }
    }

    /** A deleted guest snapshot leaves the index, and no other entry does. */
    method DelSnapshot(k: Key, last: Snap)
      requires Valid()
      modifies this
      ensures Valid() && old(acts) <= acts
      ensures s.svcMap == if k.Guest? && last.svc != "" then old(s.svcMap) - {last.svc} else old(s.svcMap)
      ensures s.store == old(s.store) && s.jobs == old(s.jobs) && s.mirrors == old(s.mirrors)
    {
      if k.Guest? && last.svc != "" && last.svc in s.svcMap { Step(EntryDropped(last.svc)); }
    }

    // -------------------------------------------------------------------------------------------
    // Mirroring
    // -------------------------------------------------------------------------------------------

    /** The end of both mirroring handlers: updateSnapshotStatusPhase on the target, which changes the phase alone. */
    method ForwardPhase(id: Id, target: Key, src: Bytes, to: Phase, readable: bool, writable: bool)
      returns (v: Verdict, u: Update)
      requires Valid() && Mirror(id) == Some(Aimed(target, src, to))
      modifies this
      ensures Valid() && old(acts) <= acts && id !in s.mirrors
      ensures v == NoError <==> u.Already? || u.Stored?
      ensures u.Unread? ==> !readable || target !in s.store.snaps
      ensures u.Already? ==> target in s.store.snaps && s.store.snaps[target] == u.latest && u.latest.phase == to
      ensures u.Unwritten? ==> !writable
      ensures u.Conflict? ==> target !in s.store.snaps || s.store.snaps[target].version != u.latest.version
      ensures u.Stored? ==>
                && target in s.store.snaps && u.latest.phase != to
                && s.store.snaps[target] == Snap(u.latest.version + 1, to, u.latest.svc)
      ensures v == NoError && target.Guest? ==> s.store.snaps[target].svc == src
    {
      OthersThanMirror(id);
      if !readable {
        MirrorStep(id, Ends);
        return Error, Unread;
      }
      var latest := if target in s.store.snaps then Some(s.store.snaps[target]) else None;
      TargetRecords(id);
      MirrorStep(id, ReadsTarget);
      if latest.None? { return Error, Unread; }
      if latest.value.phase == to { return NoError, Already(latest.value); }
      OthersThanMirror(id);
      if !writable {
        MirrorStep(id, Ends);
        return Error, Unwritten(latest.value);
      }
      TargetRecords(id);
      var current := target in s.store.snaps && s.store.snaps[target].version == latest.value.version;
      MirrorStep(id, WritesTarget);
      if !current { return Error, Conflict(latest.value); }
      return NoError, Stored(latest.value);
    }

    /** The handlers' own look at the target: they do nothing, without an error, if it cannot be read. */
    method TargetExists(id: Id, target: Key, readable: bool) returns (found: bool)
      requires Valid() && id in s.mirrors
      modifies this
      ensures Valid() && old(acts) <= acts && Mirror(id) == if found then old(Mirror(id)) else None
      ensures found ==> readable
      ensures !found ==> !readable || target !in s.store.snaps
    {
      OthersThanMirror(id);
      found := readable && target in s.store.snaps;
      if !found { MirrorStep(id, Ends); }
    }

    /** What provenance says of a job in flight. */
    lemma TargetRecords(id: Id)
      requires Valid() && id in s.mirrors && !s.mirrors[id].Heard?
      ensures s.mirrors[id].target.Guest? && s.mirrors[id].target in s.store.snaps ==>
                s.store.snaps[s.mirrors[id].target].svc == s.mirrors[id].src
      ensures s.mirrors[id].Ready? && AtVersion(s.store, s.mirrors[id].target, s.mirrors[id].copy) ==>
                s.mirrors[id].copy == s.store.snaps[s.mirrors[id].target]
    {
      MirrorInvReached(states, acts, |acts|);
      assert MirrorOk(s.svcNs, s.store, s.hist, s.mirrors[id]) && CopyOk(s.store, s.mirrors[id]);
    }

    /** An upload whose reference names a snapshot and whose phase means something for it ends in an update of that
        snapshot, and success leaves it in the phase that `Mirrors` gives; everything else is left alone without an
        error. */
    method SyncUploadByKey(id: Id, u: Bytes, read: bool, found: bool, readable: bool, writable: bool)
      returns (v: Verdict, e: UploadSync)
      requires Valid() && id !in s.mirrors
      modifies this
      ensures Valid() && old(acts) <= acts && id !in s.mirrors
      ensures e.UploadNotRead? <==> !read
      ensures e.UploadNotRead? ==> v == Error
      ensures e.NoUpload? || e.NoReference? || e.NoChange? || e.NoTarget? ==> v == NoError
      ensures e.NoReference? ==>
                forall ns: Bytes, name: Bytes :: '/' !in ns && '/' !in name ==> e.rec.ref != ns + "/" + name
      ensures e.NoChange? ==> e.rec.phase == U.Unset || e.rec.phase == U.New
      ensures e.NoTarget? ==> e.rec.phase != U.Unset && e.rec.phase != U.New
      ensures e.Mirrored? ==>
                && found && e.target.Sup? && '/' !in e.target.ns && '/' !in e.target.name
                && e.rec.ref == e.target.ns + "/" + e.target.name
                && (v == NoError <==> e.update.Already? || e.update.Stored?)
                && (v == NoError ==> e.target in s.store.snaps && Mirrors(e.rec.phase, s.store.snaps[e.target].phase))
    {
      OthersThanMirror(id);
      if !read { return Error, UploadNotRead; }
      if u !in s.uploads { return NoError, NoUpload; }
      var rec := s.uploads[u];
      MirrorStep(id, FromUploadKey(u));
      var parts := Split(rec.ref, '/');
      if |parts| != 2 {
        NoTwoParts(rec.ref);
        return NoError, NoReference(rec);
      }
      var target := Sup(parts[0], parts[1]);
      RefTargetIff(rec.ref, parts[0], parts[1]);
      var to;
      match rec.phase {
        case InProgress => to := Uploading;
        case Completed => to := Uploaded;
        case Canceled => to := Canceled;
        case Canceling => to := Canceling;
        case UploadError => to := UploadFailed;
        case CleanupFailed => to := CleanupFailed;
        case FailedAfterRetry => to := UploadFailedAfterRetry;
        case Unset | New => return NoError, NoChange(rec);
      }
      var present := TargetExists(id, target, found);
      if !present { return NoError, NoTarget(rec); }
      var verdict, update := ForwardPhase(id, target, "", to, readable, writable);
      return verdict, Mirrored(rec, target, update);
    }

    lemma NoTwoParts(ref: Bytes)
      requires |Split(ref, '/')| != 2
      ensures forall ns: Bytes, name: Bytes :: '/' !in ns && '/' !in name ==> ref != ns + "/" + name
    {
      forall ns: Bytes, name: Bytes | '/' !in ns && '/' !in name ensures ref != ns + "/" + name {
        TwoParts(ref, ns, name, '/');
      }
    }

    /** One of the seven phases of an indexed supervisor snapshot ends in an update of a guest snapshot that records
        this supervisor snapshot as its own, and success leaves it in that phase; everything else is left alone. */
    method SyncSvcSnapshotByKey(id: Id, name: Bytes, read: bool, found: bool, readable: bool, writable: bool)
      returns (v: Verdict, e: SvcSync)
      requires Valid() && id !in s.mirrors
      modifies this
      ensures Valid() && old(acts) <= acts && id !in s.mirrors
      ensures e.SvcNotRead? <==> !read
      ensures e.SvcNotRead? ==> v == Error
      ensures e.NoSvcSnapshot? || e.NotForwarded? || e.NotIndexed? || e.NoGuest? ==> v == NoError
      ensures e.NotForwarded? ==> !Passes(e.phase)
      ensures e.NotIndexed? ==> Passes(e.phase) && name !in s.svcMap
      ensures e.NoGuest? || e.Passed? ==> Passes(e.phase)
      ensures e.Passed? ==>
                && found && e.guest.Guest?
                && (v == NoError <==> e.update.Already? || e.update.Stored?)
                && (v == NoError ==>
                      && e.guest in s.store.snaps && s.store.snaps[e.guest].svc == name
                      && s.store.snaps[e.guest].phase == e.phase)
    {
      OthersThanMirror(id);
      if !read { return Error, SvcNotRead; }
      if Sup(s.svcNs, name) !in s.store.snaps { return NoError, NoSvcSnapshot; }
      var phase := s.store.snaps[Sup(s.svcNs, name)].phase;
      MirrorStep(id, FromSvcKey(name));
      match phase {
        case Uploading | Uploaded | Canceled | Canceling | CleanupFailed | UploadFailed | SnapshotFailed =>
        case Unset | New | InProgress | Snapshotted | UploadFailedAfterRetry => return NoError, NotForwarded(phase);
      }
      OthersThanMirror(id);
      if name !in s.svcMap {
        LeaveMirror(id);
        return NoError, NotIndexed(phase);
      }
      EntryParses(name);
      var guest := EntryTarget(s.svcMap[name]);
      MirrorStep(id, Lookup);
      var present := TargetExists(id, guest, found);
      if !present { return NoError, NoGuest(phase); }
      var verdict, update := ForwardPhase(id, guest, name, phase, readable, writable);
      return verdict, Passed(phase, guest, update);
    }

    /** The job ends without having done anything. */
    method LeaveMirror(id: Id)
      requires Valid() && id in s.mirrors
      modifies this
      ensures Valid() && old(acts) <= acts && id !in s.mirrors && s.svcMap == old(s.svcMap) && s.store == old(s.store)
    {
      Step(OfMirror(id, Ends));
    }

    /** The lookup of the second part of an index entry never fails. */
    lemma EntryParses(svc: Bytes)
      requires Valid() && svc in s.svcMap
      ensures ':' in s.svcMap[svc]
    {
      MirrorInvReached(states, acts, |acts|);
      assert EntryOk(s.store, svc, s.svcMap[svc]);
    }
  }
}
