/** How often a snapshot is taken for one Snapshot resource, and exactly which interruptions can repeat it. */
module SnapshotOnce {
  import opened PhaseMirror
  import opened MirrorProvenance

  /** The sync is past its checks: it has called the snapshot manager or is recording a failure. */
  predicate Called(j: Job) { j.Calling? || j.Writing? || j.Updating? }

  /** A sync is lost after its call of the snapshot manager, while the stored snapshot is still New. */
  predicate LosesACall(s: State, a: Action)
  {
    && a.OfSync? && a.e.Lost? && a.k in s.jobs && Called(s.jobs[a.k]) && s.calls[a.k] > 0
    && a.k in s.store.snaps && s.store.snaps[a.k].phase == New
  }

  /** After the call the resource has left New, or the job that will move it is still at work. */
  predicate OnceOk(st: Store, jobs: map<Key, Job>, calls: multiset<Key>, k: Key)
  {
    && calls[k] <= 1
    && (calls[k] == 1 && k in st.snaps && st.snaps[k].phase == New ==> k in jobs && Called(jobs[k]))
    && (k in jobs && !Called(jobs[k]) && jobs[k].copy.phase == New ==> calls[k] == 0)
    && (k !in st.snaps && k !in st.gone ==> calls[k] == 0)
  }

  ghost predicate OnceInv(s: State) { forall k :: OnceOk(s.store, s.jobs, s.calls, k) }

  lemma OnceOkSync(s: State, k: Key, e: SyncEvent)
    requires NamesInv(s) && OnceOk(s.store, s.jobs, s.calls, k) && SyncEnabled(s, k, e)
    requires !LosesACall(s, OfSync(k, e))
    ensures var r := DoSync(s, k, e); OnceOk(r.store, r.jobs, r.calls, k)
  {
    assert k in s.jobs ==> JobOk(s.store, k, s.jobs[k]);
    assert k in s.store.snaps ==> SnapOk(k, s.store.snaps[k]);
  }

  /** A sync changes nothing of another snapshot, nor of the mirroring jobs. */
  lemma SyncFrame(s: State, k: Key, other: Key, e: SyncEvent)
    requires SyncEnabled(s, other, e) && k != other
    ensures var r := DoSync(s, other, e);
            && (k in r.jobs <==> k in s.jobs) && (k in s.jobs ==> r.jobs[k] == s.jobs[k])
            && (k in r.store.snaps <==> k in s.store.snaps)
            && (k in s.store.snaps ==> r.store.snaps[k] == s.store.snaps[k])
            && r.store.gone == s.store.gone && r.calls[k] == s.calls[k] && r.mirrors == s.mirrors
  {
    var stepped := SetJob(s, other, NextJob(s, other, e));
    assert (k in stepped.jobs <==> k in s.jobs) && (k in s.jobs ==> stepped.jobs[k] == s.jobs[k]);
  }

  lemma OnceInvSync(s: State, k: Key, e: SyncEvent)
    requires NamesInv(s) && OnceInv(s) && SyncEnabled(s, k, e) && !LosesACall(s, OfSync(k, e))
    ensures OnceInv(DoSync(s, k, e))
  {
    var r := DoSync(s, k, e);
    forall x ensures OnceOk(r.store, r.jobs, r.calls, x) {
      if x == k {
        OnceOkSync(s, k, e);
      } else {
        SyncFrame(s, x, k, e);
        assert OnceOk(s.store, s.jobs, s.calls, x);
      }
    }
  }

  lemma OnceInvMirror(s: State, id: Id, e: MirrorEvent)
    requires NamesInv(s) && OnceInv(s) && MirrorEnabled(s, id, e)
    ensures OnceInv(DoMirror(s, id, e))
  {
    assert id in s.mirrors ==> CopyOk(s.store, s.mirrors[id]);
    var r := DoMirror(s, id, e);
    forall x ensures OnceOk(r.store, r.jobs, r.calls, x) { assert OnceOk(s.store, s.jobs, s.calls, x); }
  }

  lemma OnceInvOther(s: State, a: Action)
    requires NamesInv(s) && OnceInv(s) && Enabled(s, a) && !a.OfSync? && !a.OfMirror?
    ensures OnceInv(Do(s, a))
  {
    var r := Do(s, a);
    forall x ensures OnceOk(r.store, r.jobs, r.calls, x) { assert OnceOk(s.store, s.jobs, s.calls, x); }
  }

  lemma OnceInvStep(s: State, a: Action)
    requires NamesInv(s) && OnceInv(s) && Enabled(s, a) && !LosesACall(s, a)
    ensures OnceInv(Do(s, a))
  {
    match a
    case OfSync(k, e) => OnceInvSync(s, k, e);
    case OfMirror(id, e) => OnceInvMirror(s, id, e);
    case _ => OnceInvOther(s, a);
  }

  /** From step `from` on, no call is lost. */
  ghost predicate LosesNone(states: seq<State>, acts: seq<Action>, from: nat)
    requires |states| == |acts| + 1
  {
    forall i :: from <= i < |acts| ==> !LosesACall(states[i], acts[i])
  }

  lemma {:induction false} OnceInvReached(states: seq<State>, acts: seq<Action>, i: nat)
    requires Execution(states, acts) && i < |states| && LosesNone(states, acts, 0)
    ensures OnceInv(states[i])
  {
    if i == 0 {
    } else {
      OnceInvReached(states, acts, i - 1);
      MirrorInvReached(states, acts, i - 1);
      assert !LosesACall(states[i - 1], acts[i - 1]);
      OnceInvStep(states[i - 1], acts[i - 1]);
    }
  }

  /** Over any queue retries, resyncs, version conflicts, mirroring and harmless interruptions the snapshot manager is
      asked at most once per resource: whoever wins a conflict has left New, and nothing restores it. */
  lemma AtMostOneSnapshot(states: seq<State>, acts: seq<Action>, i: nat, k: Key)
    requires Execution(states, acts) && i < |states| && LosesNone(states, acts, 0)
    ensures states[i].calls[k] <= 1
  {
    OnceInvReached(states, acts, i);
    assert OnceOk(states[i].store, states[i].jobs, states[i].calls, k);
  }

  // ---------------------------------------------------------------------------------------------
  // A lost call is repeated
  // ---------------------------------------------------------------------------------------------

  /** No sync of this snapshot is active, and the next one will call the snapshot manager. */
  predicate Callable(s: State, k: Key) { k in s.store.snaps && s.store.snaps[k].phase == New && k !in s.jobs }

  lemma GetsAndIndexes(s: State, k: Key)
    requires Callable(s, k)
    ensures Enabled(s, OfSync(k, Gets))
    ensures var g := Do(s, OfSync(k, Gets));
            && g.calls == s.calls && Enabled(g, OfSync(k, Indexes))
            && var i := Do(g, OfSync(k, Indexes));
               i.calls == s.calls && i.store == s.store && Enabled(i, OfSync(k, Calls))
  {}

  /** A sync up to its call. */
  lemma SyncCalls(states: seq<State>, acts: seq<Action>, k: Key) returns (states': seq<State>, acts': seq<Action>)
    requires Execution(states, acts) && Callable(states[|acts|], k)
    ensures Execution(states', acts') && states <= states' && acts <= acts' && LosesNone(states', acts', |acts|)
    ensures states'[|acts'|].calls == states[|acts|].calls + multiset{k}
    ensures states'[|acts'|].store == states[|acts|].store
    ensures k in states'[|acts'|].jobs && states'[|acts'|].jobs[k].Calling?
  {
    GetsAndIndexes(states[|acts|], k);
    states', acts' := Extended(states, acts, OfSync(k, Gets));
    states', acts' := Extended(states', acts', OfSync(k, Indexes));
    states', acts' := Extended(states', acts', OfSync(k, Calls));
  }

  lemma LostLeavesCallable(s: State, a: Action)
    requires Enabled(s, a) && LosesACall(s, a)
    ensures Callable(Do(s, a), a.k) && Do(s, a).calls == s.calls
  {}

  lemma LostCallRepeats(states: seq<State>, acts: seq<Action>, a: Action)
    returns (states': seq<State>, acts': seq<Action>)
    requires Execution(states, acts) && Enabled(states[|acts|], a) && LosesACall(states[|acts|], a)
    ensures Execution(states', acts') && LosesNone(states', acts', |acts| + 1)
    ensures states + [Do(states[|acts|], a)] <= states' && acts + [a] <= acts'
    ensures states'[|acts'|].calls[a.k] >= 2
  {
    LostLeavesCallable(states[|acts|], a);
    states', acts' := Extended(states, acts, a);
    states', acts' := SyncCalls(states', acts', a.k);
  }

  /** Whatever happens after this execution, short of another lost call, no snapshot is taken twice. */
  ghost predicate OnceBeyond(states: seq<State>, acts: seq<Action>)
  {
    forall states': seq<State>, acts': seq<Action>, k: Key ::
      Execution(states', acts') && states <= states' && acts <= acts' && LosesNone(states', acts', |acts|) ==>
        states'[|acts'|].calls[k] <= 1
  }

  /** A step keeps the snapshots single exactly if it does not lose a call. */
  lemma AtMostOneSnapshotIff(states: seq<State>, acts: seq<Action>, a: Action)
    requires Execution(states, acts) && LosesNone(states, acts, 0) && Enabled(states[|acts|], a)
    ensures OnceBeyond(states + [Do(states[|acts|], a)], acts + [a]) <==> !LosesACall(states[|acts|], a)
  {
    var states1, acts1 := Extended(states, acts, a);
    if LosesACall(states[|acts|], a) {
      var states2, acts2 := LostCallRepeats(states, acts, a);
      assert states2[|acts2|].calls[a.k] > 1;
      assert !OnceBeyond(states1, acts1);
    } else {
      forall states': seq<State>, acts': seq<Action>, k: Key
        | Execution(states', acts') && states1 <= states' && acts1 <= acts' && LosesNone(states', acts', |acts1|)
        ensures states'[|acts'|].calls[k] <= 1
      {
        forall i | 0 <= i < |acts'| ensures !LosesACall(states'[i], acts'[i]) {
          if i < |acts1| {
            assert states'[i] == states1[i] && acts'[i] == acts1[i];
          }
        }
        AtMostOneSnapshot(states', acts', |acts'|, k);
      }
    }
  }

  /** Such a step is reachable: a restart right after the call. */
  lemma LostCallReachable(k: Key) returns (states: seq<State>, acts: seq<Action>)
    requires Named(k)
    ensures Execution(states, acts) && LosesNone(states, acts, 0)
    ensures Enabled(states[|acts|], OfSync(k, Lost)) && LosesACall(states[|acts|], OfSync(k, Lost))
  {
    states, acts := Extended([Empty("svc")], [], SnapshotCreated(k, New));
    states, acts := SyncCalls(states, acts, k);
  }

  // ---------------------------------------------------------------------------------------------
  // Snapshotted means that a snapshot was taken
  // ---------------------------------------------------------------------------------------------

  ghost predicate TakenInv(s: State)
  {
    && (forall k :: k in s.store.snaps && s.store.snaps[k].phase == Snapshotted ==> k in s.hist.taken)
    && (forall k :: k in s.jobs && (s.jobs[k].Writing? || s.jobs[k].Updating?) && s.jobs[k].to == Snapshotted ==>
          k in s.hist.taken)
    && (forall id :: id in s.mirrors ==> s.mirrors[id].to != Snapshotted)
  }

  lemma TakenInvSync(s: State, k: Key, e: SyncEvent)
    requires TakenInv(s) && SyncEnabled(s, k, e)
    ensures TakenInv(DoSync(s, k, e))
  {}

  lemma TakenInvMirror(s: State, id: Id, e: MirrorEvent)
    requires TakenInv(s) && MirrorEnabled(s, id, e)
    ensures TakenInv(DoMirror(s, id, e))
  {}

  lemma TakenInvStep(s: State, a: Action)
    requires TakenInv(s) && Enabled(s, a)
    ensures TakenInv(Do(s, a))
  {
    match a
    case OfSync(k, e) => TakenInvSync(s, k, e);
    case OfMirror(id, e) => TakenInvMirror(s, id, e);
    case _ =>
  }

  lemma {:induction false} TakenInvReached(states: seq<State>, acts: seq<Action>, i: nat)
    requires Execution(states, acts) && i < |states|
    ensures TakenInv(states[i])
  {
    if i == 0 {
    } else {
      TakenInvReached(states, acts, i - 1);
      TakenInvStep(states[i - 1], acts[i - 1]);
    }
  }

  /** The call of the snapshot manager for this snapshot returned one whose metadata could be read. */
  predicate ReturnsSnapshot(a: Action, k: Key)
  {
    a.OfSync? && a.k == k && a.e.Returns? && a.e.result.Created? && a.e.result.readable
  }

  lemma TakenStep(s: State, a: Action, k: Key)
    requires Enabled(s, a)
    ensures k in Do(s, a).hist.taken <==> k in s.hist.taken || ReturnsSnapshot(a, k)
  {}

  lemma {:induction false} TakenIsTheTrace(states: seq<State>, acts: seq<Action>, i: nat, k: Key)
    requires Execution(states, acts) && i < |states|
    ensures k in states[i].hist.taken <==> exists j :: 0 <= j < i && ReturnsSnapshot(acts[j], k)
  {
    if i == 0 {
    } else {
      TakenIsTheTrace(states, acts, i - 1, k);
      TakenStep(states[i - 1], acts[i - 1], k);
      assert 0 <= i - 1 < i;
    }
  }

  /** A stored Snapshotted means that a call of the snapshot manager for this very snapshot returned one that could be
      read: a failed call or unreadable metadata never leads there, nor does mirroring. */
  lemma SnapshottedWasTaken(states: seq<State>, acts: seq<Action>, i: nat, k: Key)
    requires Execution(states, acts) && i < |states|
    requires k in states[i].store.snaps && states[i].store.snaps[k].phase == Snapshotted
    ensures exists j :: 0 <= j < i && ReturnsSnapshot(acts[j], k)
  {
    TakenInvReached(states, acts, i);
    TakenIsTheTrace(states, acts, i, k);
  }
}
