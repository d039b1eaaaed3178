/** The claim reconciler's code, call by call, as executions of the claims protocol. */
module ClaimController {
  import opened Common
  import opened Json
  import opened RepositoryClaims

  predicate Foreign(a: Action, id: Id)
  {
    match a
    case SyncStart(other, _) => other != id
    case RepositoryGet(other) => other != id
    case RepositoryCreate(other, _) => other != id
    case ClaimPatch(other, _) => other != id
    case JobEnds(other) => other != id
    case _ => true
  }

  lemma ForeignKeepsJob(s: State, a: Action, id: Id)
    requires Enabled(s, a) && Foreign(a, id)
    ensures id in Do(s, a).jobs <==> id in s.jobs
    ensures id in s.jobs ==> Do(s, a).jobs[id] == s.jobs[id]
  {}

  lemma BuiltGrows(s: State, a: Action)
    requires Enabled(s, a)
    ensures s.built.Keys <= Do(s, a).built.Keys
  {}

  class Cluster {
    var s: State
    ghost var states: seq<State>
    ghost var acts: seq<Action>

    ghost predicate Valid()
      reads this
    {
      Execution(states, acts) && s == states[|acts|]
    }

    function JobOf(id: Id): (r: Option<Job>)
      reads this
    {
      if id in s.jobs then Some(s.jobs[id]) else None
    }

    constructor ()
      ensures Valid() && acts == []
    {
      s := State(map[], map[], {}, map[], map[], map[]);
      new;
      states, acts := [s], [];
    }

    method Step(a: Action)
      requires Valid() && Enabled(s, a)
      modifies this
      ensures Valid() && s == Do(old(s), a) && acts == old(acts) + [a] && states == old(states) + [s]
    {
      states, acts := Extended(states, acts, a);
      s := Do(s, a);
    }

    /** Any number of steps of everybody but this sync. */
    method Others(id: Id)
      requires Valid()
      modifies this
      ensures Valid() && old(acts) <= acts && old(states) <= states
      ensures JobOf(id) == old(JobOf(id)) && old(s.built.Keys) <= s.built.Keys
    {
      var k: nat := *;
      while k > 0
        invariant Valid() && old(acts) <= acts && old(states) <= states
        invariant JobOf(id) == old(JobOf(id)) && old(s.built.Keys) <= s.built.Keys
      {
        var a: Action := *;
        if Enabled(s, a) && Foreign(a, id) {
          ForeignKeepsJob(s, a, id);
          BuiltGrows(s, a);
          Step(a);
        }
        k := k - 1;
      }
    }

    /** Look the repository up by its derived name and create it if it is not found. On success it has been built,
        from this claim's parameters and namespaces. */
    method CreateBackupRepository(id: Id, brc: Claim, svc: Name, readable: bool, writable: bool)
      returns (name: Option<Name>, made: bool)
      requires Valid() && JobOf(id) == Some(Listed(brc))
      modifies this
      ensures Valid() && old(acts) <= acts && old(states) <= states
      ensures name.Some? ==>
                && JobOf(id) == Some(Bound(brc))
                && name.value in s.built && MadeFor(brc, name.value, s.built[name.value])
      ensures name.Some? ==> readable && name.value == "br-" + brc.uid
      ensures made ==> name.Some? && s.built[name.value] == Repository(brc.name, brc.params, brc.namespaces, svc)
      ensures name.None? ==> id !in s.jobs && (!readable || !writable || "br-" + brc.uid in s.repos)
    {
      Others(id);
      if !readable {
        Step(JobEnds(id));
        return None, false;
      }
      var found := RepositoryName(brc) in s.repos;
      Step(RepositoryGet(id));
      if !found {
        Others(id);
        if !writable || RepositoryName(brc) in s.repos {
          Step(if !writable then JobEnds(id) else RepositoryCreate(id, svc));
          return None, false;
        }
        Step(RepositoryCreate(id, svc));
      }
      BoundIsBuilt(id, brc);
      return Some(RepositoryName(brc)), !found;
    }

    lemma BoundIsBuilt(id: Id, brc: Claim)
      requires Valid() && JobOf(id) == Some(Bound(brc))
      ensures RepositoryName(brc) in s.built && MadeFor(brc, RepositoryName(brc), s.built[RepositoryName(brc)])
    {
      ClaimInvReached(states, acts, |acts|);
      var name := RepositoryName(brc);
      assert JobOk(s.ever, s.built, s.jobs[id]) && RepositoryOk(s.ever, name, s.built[name]);
      RepositoryNameInjective(brc, s.ever[s.built[name].claim]);
    }

    /** A sync of a cached claim without a reference that reports success leaves the stored claim bound; in any case the
        repository has been built, from the claim's own parameters and namespaces. */
    method SyncBackupRepositoryClaim(id: Id, brc: Option<Claim>, svc: Option<Name>, readable: bool, writable: bool,
                                     delivered: bool)
      returns (v: Verdict)
      requires Valid() && id !in s.jobs && (brc.Some? ==> brc.value in s.views)
      modifies this
      ensures Valid() && old(acts) <= acts && old(states) <= states && id !in s.jobs
      ensures v == NoError && brc.Some? ==>
                var c := brc.value;
                && svc.Some? && readable && delivered
                && c.name in s.claims && (c.ref == "" ==> s.claims[c.name].ref == "br-" + c.uid)
                && RepositoryName(c) in s.built && MadeFor(c, RepositoryName(c), s.built[RepositoryName(c)])
      ensures brc.None? ==> v == NoError && acts == old(acts)
      ensures v == Error ==>
                || svc.None? || !readable || !writable || !delivered || brc.value.name !in s.claims
                || "br-" + brc.value.uid in s.repos
    {
      if brc.None? { return NoError; }
      if svc.None? { return Error; }           // claiming the supervisor's repository failed
      var c := brc.value;
      Step(SyncStart(id, c));
      var name, _ := CreateBackupRepository(id, c, svc.value, readable, writable);
      if name.None? { return Error; }
      v := BindClaim(id, c, delivered);
    }

    /** PatchBackupRepositoryClaim on the cached claim. */
    method BindClaim(id: Id, c: Claim, delivered: bool) returns (v: Verdict)
      requires Valid() && JobOf(id) == Some(Bound(c))
      modifies this
      ensures Valid() && old(acts) <= acts && old(states) <= states && id !in s.jobs
      ensures RepositoryName(c) in s.built && MadeFor(c, RepositoryName(c), s.built[RepositoryName(c)])
      ensures v == Error <==> !delivered || c.name !in s.claims
      ensures v == NoError && c.ref == "" ==> s.claims[c.name].ref == "br-" + c.uid
    {
      Others(id);
      BoundIsBuilt(id, c);
      v := if delivered && c.name in s.claims then NoError else Error;
      Step(ClaimPatch(id, delivered));
    }
  }
}
