/** Where snapshot phases come from. */
module MirrorProvenance {
  import opened Json
  import opened Base64
  import opened PhaseMirror

  // ---------------------------------------------------------------------------------------------
  // Names, versions and the supervisor name of a snapshot
  // ---------------------------------------------------------------------------------------------

  predicate Known(st: Store, k: Key) { k in st.snaps || k in st.gone }

  predicate SnapOk(k: Key, snap: Snap)
  {
    Named(k) && (snap.svc != "" ==> snap.phase != New) && (snap.phase == New ==> snap.version == 0)
  }

  /** The job may still write a supervisor name. */
  predicate Pending(j: Job) { (j.Got? || j.Synced?) ==> j.copy.phase == New }

  /** An old copy of a snapshot: an earlier version, or the same object. */
  predicate Earlier(copy: Snap, now: Snap)
  {
    && copy.version <= now.version && (copy.version == now.version ==> copy == now)
    && (copy.svc != "" ==> now.svc == copy.svc)
  }

  predicate JobOk(st: Store, k: Key, j: Job)
  {
    && Known(st, k) && Named(k)
    && (j.Writing? || j.Updating? ==> j.to == Snapshotted || j.to == SnapshotFailed)
    && (k in st.snaps ==>
          && (j.Got? || j.Synced? || j.Updating? ==> Earlier(j.copy, st.snaps[k]))
          && (Pending(j) ==> st.snaps[k].svc == ""))
  }

  /** What a mirror job read is still an earlier copy of its target, and it never restores New. */
  predicate CopyOk(st: Store, m: Mirror)
  {
    m.to != New && (m.Ready? ==> Known(st, m.target) && (m.target in st.snaps ==> Earlier(m.copy, st.snaps[m.target])))
  }

  /** An index entry names a guest snapshot that, while it exists, records this supervisor snapshot. */
  predicate EntryOk(st: Store, svc: Bytes, entry: Bytes)
  {
    && ':' in entry && svc != ""
    && var g := EntryTarget(entry);
       Known(st, g) && (g in st.snaps ==> st.snaps[g].svc == svc)
  }

  ghost predicate StoreInv(st: Store)
  {
    forall k :: k in st.snaps ==> SnapOk(k, st.snaps[k]) && k !in st.gone
  }

  ghost predicate NamesInv(s: State)
  {
    && StoreInv(s.store)
    && (forall k :: k in s.jobs ==> JobOk(s.store, k, s.jobs[k]))
    && (forall id :: id in s.mirrors ==> CopyOk(s.store, s.mirrors[id]))
    && (forall svc :: svc in s.svcMap ==> EntryOk(s.store, svc, s.svcMap[svc]))
  }

  /** A new version of a snapshot: it leaves New for good and keeps a supervisor name once it has one. */
  lemma NamesInvWrite(s: State, k: Key, snap: Snap)
    requires NamesInv(s) && k in s.store.snaps && snap.version == s.store.snaps[k].version + 1 && snap.phase != New
    requires snap.svc == s.store.snaps[k].svc || (s.store.snaps[k].svc == "" && k !in s.jobs)
    ensures NamesInv(SetSnap(s, k, snap))
  {
  }

  lemma NextJobOk(s: State, k: Key, e: SyncEvent)
    requires NamesInv(s) && SyncEnabled(s, k, e) && NextJob(s, k, e).Some?
    ensures JobOk(s.store, k, NextJob(s, k, e).value)
  {
    assert k in s.jobs ==> JobOk(s.store, k, s.jobs[k]);
  }

  lemma NamesInvJob(s: State, k: Key, next: Option<Job>)
    requires NamesInv(s) && (next.Some? ==> JobOk(s.store, k, next.value))
    ensures NamesInv(SetJob(s, k, next))
  {
  }

  lemma IndexedOk(st: Store, svcMap: map<Bytes, Bytes>, k: Key, j: Job)
    requires j.Got? && JobOk(st, k, j)
    requires forall svc :: svc in svcMap ==> EntryOk(st, svc, svcMap[svc])
    ensures forall svc :: svc in Indexed(svcMap, k, j.copy) ==> EntryOk(st, svc, Indexed(svcMap, k, j.copy)[svc])
  {
    if k.Guest? { EntryRoundTrip(k); }
  }

  lemma NamesInvSync(s: State, k: Key, e: SyncEvent)
    requires NamesInv(s) && SyncEnabled(s, k, e)
    ensures NamesInv(DoSync(s, k, e))
  {
    var next := NextJob(s, k, e);
    if next.Some? { NextJobOk(s, k, e); }
    NamesInvJob(s, k, next);
    if e.Indexes? {
      IndexedOk(s.store, s.svcMap, k, s.jobs[k]);
    } else if e.Writes? && AtVersion(s.store, k, s.jobs[k].copy) {
      assert JobOk(s.store, k, s.jobs[k]);
      NamesInvWrite(SetJob(s, k, None), k, JobWrite(s.jobs[k]));
    }
  }

  lemma NamesInvMirror(s: State, id: Id, e: MirrorEvent)
    requires NamesInv(s) && MirrorEnabled(s, id, e)
    ensures NamesInv(DoMirror(s, id, e))
  {
    assert id in s.mirrors ==> CopyOk(s.store, s.mirrors[id]);
    var stepped := SetMirror(s, id, NextMirror(s, id, e));
    assert NamesInv(stepped);
    if e.WritesTarget? && AtVersion(s.store, s.mirrors[id].target, s.mirrors[id].copy) {
      NamesInvWrite(stepped, s.mirrors[id].target, MirrorWrite(s.mirrors[id]));
    }
  }

  lemma NamesInvOther(s: State, a: Action)
    requires NamesInv(s) && Enabled(s, a) && !a.OfSync? && !a.OfMirror?
    ensures NamesInv(Do(s, a))
  {}

  lemma NamesInvStep(s: State, a: Action)
    requires NamesInv(s) && Enabled(s, a)
    ensures NamesInv(Do(s, a))
  {
    match a
    case OfSync(k, e) => NamesInvSync(s, k, e);
    case OfMirror(id, e) => NamesInvMirror(s, id, e);
    case _ => NamesInvOther(s, a);
  }

  // ---------------------------------------------------------------------------------------------
  // Phases
  // ---------------------------------------------------------------------------------------------

  /** Some upload naming snapshot `k` held a phase whose image is `p`. */
  ghost predicate FromUpload(h: History, k: Key, p: Phase)
  {
    exists up :: (k, up) in h.uploadHeld && Image(up) == Some(p)
  }

  /** The supervisor snapshot `svc` held `p`, a phase that is passed on. */
  predicate FromSupervisor(ns: Bytes, h: History, svc: Bytes, p: Phase)
  {
    (Sup(ns, svc), p) in h.snapHeld && Forwarded(p)
  }

  ghost predicate TargetOk(ns: Bytes, st: Store, h: History, target: Key, src: Bytes, to: Phase)
  {
    && (target.Sup? ==> FromUpload(h, target, to))
    && (target.Guest? ==> src != "" && FromSupervisor(ns, h, src, to) && Known(st, target)
                          && (target in st.snaps ==> st.snaps[target].svc == src))
  }

  ghost predicate MirrorOk(ns: Bytes, st: Store, h: History, m: Mirror)
  {
    match m
    case Heard(src, to) => FromSupervisor(ns, h, src, to)
    case Aimed(target, src, to) => TargetOk(ns, st, h, target, src, to)
    case Ready(target, src, to, _) => TargetOk(ns, st, h, target, src, to)
  }

  /** What a snapshot may show. */
  ghost predicate PhaseOk(ns: Bytes, h: History, k: Key, snap: Snap)
  {
    && (k, snap.phase) in h.snapHeld
    && (k.Guest? && !Own(snap.phase) ==> snap.svc != "" && FromSupervisor(ns, h, snap.svc, snap.phase))
  }

  ghost predicate HistoryOk(h: History)
  {
    forall k, p :: (k, p) in h.snapHeld && k.Sup? && !Own(p) ==> FromUpload(h, k, p)
  }

  ghost predicate PhaseInv(s: State)
  {
    && HistoryOk(s.hist)
    && (forall k :: k in s.store.snaps ==> PhaseOk(s.svcNs, s.hist, k, s.store.snaps[k]))
    && (forall u :: u in s.uploads && RefTarget(s.uploads[u].ref).Some? ==>
          (RefTarget(s.uploads[u].ref).value, s.uploads[u].phase) in s.hist.uploadHeld)
    && (forall id :: id in s.mirrors ==> MirrorOk(s.svcNs, s.store, s.hist, s.mirrors[id]))
  }

  predicate Grows(h: History, h': History) { h.uploadHeld <= h'.uploadHeld && h.snapHeld <= h'.snapHeld }

  lemma FromUploadGrows(h: History, h': History, k: Key, p: Phase)
    requires Grows(h, h') && FromUpload(h, k, p)
    ensures FromUpload(h', k, p)
  {
    var up :| (k, up) in h.uploadHeld && Image(up) == Some(p);
    assert (k, up) in h'.uploadHeld;
  }

  lemma MirrorOkGrows(ns: Bytes, st: Store, h: History, h': History, m: Mirror)
    requires Grows(h, h') && MirrorOk(ns, st, h, m)
    ensures MirrorOk(ns, st, h', m)
  {
    if !m.Heard? && m.target.Sup? { FromUploadGrows(h, h', m.target, m.to); }
  }

  /** The same jobs after one snapshot got a new version that keeps its supervisor name. */
  lemma MirrorOkAfterWrite(ns: Bytes, st: Store, st': Store, h: History, m: Mirror)
    requires MirrorOk(ns, st, h, m) && st'.gone == st.gone
    requires st.snaps.Keys <= st'.snaps.Keys
    requires forall k :: k in st'.snaps && k !in st.snaps ==> k !in st.gone
    requires forall k :: k in st.snaps && st.snaps[k].svc != "" ==> st'.snaps[k].svc == st.snaps[k].svc
    ensures MirrorOk(ns, st', h, m)
  {
  }

  /** Storing a snapshot whose phase has a source keeps the invariant. */
  lemma PhaseInvWrite(s: State, k: Key, snap: Snap)
    requires PhaseInv(s) && k !in s.store.gone
    requires k in s.store.snaps && s.store.snaps[k].svc != "" ==> snap.svc == s.store.snaps[k].svc
    requires k.Sup? && !Own(snap.phase) ==> FromUpload(s.hist, k, snap.phase)
    requires k.Guest? && !Own(snap.phase) ==> snap.svc != "" && FromSupervisor(s.svcNs, s.hist, snap.svc, snap.phase)
    ensures PhaseInv(SetSnap(s, k, snap))
  {
    var r := SetSnap(s, k, snap);
    forall k', p | (k', p) in r.hist.snapHeld && k'.Sup? && !Own(p) ensures FromUpload(r.hist, k', p) {
      FromUploadGrows(s.hist, r.hist, k', p);
    }
    forall k' | k' in r.store.snaps ensures PhaseOk(r.svcNs, r.hist, k', r.store.snaps[k']) {
      assert k' != k ==> PhaseOk(s.svcNs, s.hist, k', s.store.snaps[k']);
    }
    forall id | id in r.mirrors ensures MirrorOk(r.svcNs, r.store, r.hist, r.mirrors[id]) {
      MirrorOkGrows(s.svcNs, s.store, s.hist, r.hist, s.mirrors[id]);
      MirrorOkAfterWrite(s.svcNs, s.store, r.store, r.hist, s.mirrors[id]);
    }
  }

  lemma PhaseInvSync(s: State, k: Key, e: SyncEvent)
    requires NamesInv(s) && PhaseInv(s) && SyncEnabled(s, k, e)
    ensures PhaseInv(DoSync(s, k, e))
  {
    if e.Writes? && AtVersion(s.store, k, s.jobs[k].copy) {
      assert JobOk(s.store, k, s.jobs[k]);
      PhaseInvWrite(SetJob(s, k, None), k, JobWrite(s.jobs[k]));
    }
  }

  lemma NextMirrorOk(s: State, id: Id, e: MirrorEvent)
    requires NamesInv(s) && PhaseInv(s) && MirrorEnabled(s, id, e) && NextMirror(s, id, e).Some?
    ensures MirrorOk(s.svcNs, s.store, s.hist, NextMirror(s, id, e).value)
  {
    match e
    case FromUploadKey(u) =>
      var rec := s.uploads[u];
      assert (RefTarget(rec.ref).value, rec.phase) in s.hist.uploadHeld;
    case FromSvcKey(name) => assert PhaseOk(s.svcNs, s.hist, Sup(s.svcNs, name), s.store.snaps[Sup(s.svcNs, name)]);
    case Lookup =>
      var m := s.mirrors[id];
      assert EntryOk(s.store, m.src, s.svcMap[m.src]);
      assert MirrorOk(s.svcNs, s.store, s.hist, m);
    case ReadsTarget => assert MirrorOk(s.svcNs, s.store, s.hist, s.mirrors[id]);
    case _ =>
  }

  lemma PhaseInvMirror(s: State, id: Id, e: MirrorEvent)
    requires NamesInv(s) && PhaseInv(s) && MirrorEnabled(s, id, e)
    ensures PhaseInv(DoMirror(s, id, e))
  {
    if NextMirror(s, id, e).Some? { NextMirrorOk(s, id, e); }
    var stepped := SetMirror(s, id, NextMirror(s, id, e));
    assert PhaseInv(stepped);
    if e.WritesTarget? && AtVersion(s.store, s.mirrors[id].target, s.mirrors[id].copy) {
      var m := s.mirrors[id];
      assert MirrorOk(s.svcNs, s.store, s.hist, m) && CopyOk(s.store, m);
      PhaseInvWrite(stepped, m.target, MirrorWrite(m));
    }
  }

  lemma PhaseInvUpload(s: State, u: Bytes, ref: Bytes, phase: U.Phase)
    requires PhaseInv(s) && Enabled(s, UploadChanges(u, ref, phase))
    ensures PhaseInv(Do(s, UploadChanges(u, ref, phase)))
  {
    var r := Do(s, UploadChanges(u, ref, phase));
    forall k, p | (k, p) in r.hist.snapHeld && k.Sup? && !Own(p) ensures FromUpload(r.hist, k, p) {
      FromUploadGrows(s.hist, r.hist, k, p);
    }
    forall id | id in r.mirrors ensures MirrorOk(r.svcNs, r.store, r.hist, r.mirrors[id]) {
      MirrorOkGrows(s.svcNs, s.store, s.hist, r.hist, s.mirrors[id]);
    }
    forall k | k in r.store.snaps ensures PhaseOk(r.svcNs, r.hist, k, r.store.snaps[k]) {
      assert PhaseOk(s.svcNs, s.hist, k, s.store.snaps[k]);
    }
  }

  lemma PhaseInvStep(s: State, a: Action)
    requires NamesInv(s) && PhaseInv(s) && Enabled(s, a)
    ensures PhaseInv(Do(s, a))
  {
    match a
    case UploadChanges(u, ref, phase) => PhaseInvUpload(s, u, ref, phase);
    case SnapshotCreated(k, phase) => PhaseInvWrite(s, k, Snap(0, phase, ""));
    case OfSync(k, e) => PhaseInvSync(s, k, e);
    case OfMirror(id, e) => PhaseInvMirror(s, id, e);
    case _ =>
  }

  lemma {:induction false} MirrorInvReached(states: seq<State>, acts: seq<Action>, i: nat)
    requires Execution(states, acts) && i < |states|
    ensures NamesInv(states[i]) && PhaseInv(states[i])
  {
    if i == 0 {
    } else {
      MirrorInvReached(states, acts, i - 1);
      NamesInvStep(states[i - 1], acts[i - 1]);
      PhaseInvStep(states[i - 1], acts[i - 1]);
    }
  }

  // ---------------------------------------------------------------------------------------------
  // What was held, in terms of what happened
  // ---------------------------------------------------------------------------------------------

  /** The action stores phase `p` in an upload whose reference is the namespace and name of `k`. */
  predicate UploadShows(a: Action, k: Key, p: U.Phase)
  {
    a.UploadChanges? && k.Sup? && '/' !in k.ns && '/' !in k.name && a.ref == k.ns + "/" + k.name && a.phase == p
  }

  predicate SnapShows(s: State, k: Key, p: Phase) { k in s.store.snaps && s.store.snaps[k].phase == p }

  lemma UploadHeldStep(s: State, a: Action, k: Key, p: U.Phase)
    requires Enabled(s, a)
    ensures (k, p) in Do(s, a).hist.uploadHeld <==> (k, p) in s.hist.uploadHeld || UploadShows(a, k, p)
  {
    if a.UploadChanges? {
      RefTargetIff(a.ref, k.ns, k.name);
      assert k.Sup? ==> k == Sup(k.ns, k.name);
    }
  }

  lemma {:induction false} UploadHeldIsTheTrace(states: seq<State>, acts: seq<Action>, i: nat, k: Key, p: U.Phase)
    requires Execution(states, acts) && i < |states|
    ensures (k, p) in states[i].hist.uploadHeld <==> exists j :: 0 <= j < i && UploadShows(acts[j], k, p)
  {
    if i == 0 {
    } else {
      UploadHeldIsTheTrace(states, acts, i - 1, k, p);
      UploadHeldStep(states[i - 1], acts[i - 1], k, p);
      assert 0 <= i - 1 < i;
    }
  }

  lemma SnapHeldStep(s: State, a: Action, k: Key, p: Phase)
    requires Enabled(s, a)
    ensures (k, p) in Do(s, a).hist.snapHeld ==> (k, p) in s.hist.snapHeld || SnapShows(Do(s, a), k, p)
  {}

  lemma {:induction false} SnapHeldIsTheTrace(states: seq<State>, acts: seq<Action>, i: nat, k: Key, p: Phase)
    requires Execution(states, acts) && i < |states| && (k, p) in states[i].hist.snapHeld
    ensures exists j :: 0 <= j <= i && SnapShows(states[j], k, p)
  {
    if i == 0 {
    } else {
      SnapHeldStep(states[i - 1], acts[i - 1], k, p);
      if (k, p) in states[i - 1].hist.snapHeld {
        SnapHeldIsTheTrace(states, acts, i - 1, k, p);
        var j :| 0 <= j <= i - 1 && SnapShows(states[j], k, p);
        assert 0 <= j <= i;
      } else {
        assert SnapShows(states[i], k, p);
      }
    }
  }

  /** Before time i some upload naming `k` was stored in phase `p`. */
  ghost predicate UploadHeld(acts: seq<Action>, i: nat, k: Key, p: U.Phase)
    requires i <= |acts|
  {
    exists j :: 0 <= j < i && UploadShows(acts[j], k, p)
  }

  /** What the phase of a snapshot says about the uploads naming `k`. */
  ghost predicate ComesFromUploads(acts: seq<Action>, i: nat, k: Key, p: Phase)
    requires i <= |acts|
  {
    && (p == Uploading ==> UploadHeld(acts, i, k, U.InProgress))
    && (p == Uploaded ==> UploadHeld(acts, i, k, U.Completed))
    && (p == UploadFailed ==> UploadHeld(acts, i, k, U.UploadError))
    && (p == CleanupFailed ==> UploadHeld(acts, i, k, U.CleanupFailed))
    && (p == Canceling ==> UploadHeld(acts, i, k, U.Canceling))
    && (p == Canceled ==> UploadHeld(acts, i, k, U.Canceled))
    && (p == UploadFailedAfterRetry ==> UploadHeld(acts, i, k, U.FailedAfterRetry))
    && p != InProgress
  }

  /** The image of a held upload phase, phase by phase. */
  lemma HeldByPhase(states: seq<State>, acts: seq<Action>, i: nat, k: Key, p: Phase)
    requires Execution(states, acts) && i < |states| && (Own(p) || FromUpload(states[i].hist, k, p))
    ensures ComesFromUploads(acts, i, k, p)
  {
    if !Own(p) {
      var up :| (k, up) in states[i].hist.uploadHeld && Image(up) == Some(p);
      UploadHeldIsTheTrace(states, acts, i, k, up);
      assert UploadHeld(acts, i, k, up);
    }
  }

  /** First hop: Uploaded on a supervisor snapshot means that an upload naming it was Completed before, UploadFailed
      that one was in UploadError, Uploading that one was in progress, and so on for all seven. */
  lemma SupervisorPhasesComeFromUploads(states: seq<State>, acts: seq<Action>, i: nat, k: Key)
    requires Execution(states, acts) && i < |states| && k in states[i].store.snaps && k.Sup?
    ensures ComesFromUploads(acts, i, k, states[i].store.snaps[k].phase)
  {
    MirrorInvReached(states, acts, i);
    var s, p := states[i], states[i].store.snaps[k].phase;
    assert PhaseOk(s.svcNs, s.hist, k, s.store.snaps[k]);
    HeldByPhase(states, acts, i, k, p);
  }

  /** Second hop: a guest snapshot shows such a phase only if the supervisor snapshot recorded in its own
      SvcSnapshotName showed it before, and so, over both hops, an upload naming that one held its source. */
  lemma GuestPhasesComeFromTheirSupervisor(states: seq<State>, acts: seq<Action>, i: nat, k: Key)
    requires Execution(states, acts) && i < |states| && k in states[i].store.snaps && k.Guest?
    ensures var snap := states[i].store.snaps[k];
            var sup := Sup(states[i].svcNs, snap.svc);
            || snap.phase == Unset || snap.phase == New || snap.phase == Snapshotted || snap.phase == SnapshotFailed
            || (&& snap.svc != "" && snap.phase != UploadFailedAfterRetry
                && (exists j :: 0 <= j <= i && SnapShows(states[j], sup, snap.phase))
                && ComesFromUploads(acts, i, sup, snap.phase))
  {
    MirrorInvReached(states, acts, i);
    var s, snap := states[i], states[i].store.snaps[k];
    assert PhaseOk(s.svcNs, s.hist, k, snap);
    if !Own(snap.phase) {
      var sup := Sup(s.svcNs, snap.svc);
      assert FromUpload(s.hist, sup, snap.phase);
      SnapHeldIsTheTrace(states, acts, i, sup, snap.phase);
      HeldByPhase(states, acts, i, sup, snap.phase);
    }
  }
}
