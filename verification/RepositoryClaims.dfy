/** BackupRepositoryClaims and the BackupRepositories made for them: the reconcile loop with retries,
    restarts and cached claims of any age, and the call that waits for a repository. */
module RepositoryClaims {
  import opened Json

  type Name = string
  type Id = nat
  type Params = map<string, string>

  const REPOSITORY_PREFIX: string := "br-"
  const S3_DRIVER: string := "s3repository.astrolabe.vmware-tanzu.com"

  /** `ref` is the BackupRepository field, empty until the claim is bound. */
  datatype Claim = Claim(name: Name, uid: string, driver: string, params: Params, namespaces: seq<string>, ref: Name)

  datatype Repository = Repository(claim: Name, params: Params, namespaces: seq<string>, svc: Name)

  /** GetBackupRepositoryNameForBackupRepositoryClaim. */
  function RepositoryName(c: Claim): (r: Name) { REPOSITORY_PREFIX + c.uid }

  lemma RepositoryNameInjective(a: Claim, b: Claim)
    ensures RepositoryName(a) == RepositoryName(b) <==> a.uid == b.uid
  {
    assert RepositoryName(a)[|REPOSITORY_PREFIX|..] == a.uid;
    assert RepositoryName(b)[|REPOSITORY_PREFIX|..] == b.uid;
  }

  /** One pass of syncBackupRepositoryClaimByKey over the claim its lister returned. */
  datatype Job =
    | Listed(view: Claim)
    | Missing(view: Claim)      // no repository of that name was found
    | Bound(view: Claim)        // the repository exists

  datatype State = State(
    claims: map<Name, Claim>,
    repos: map<Name, Repository>,
    views: set<Claim>,                // values a lister may return, however stale
    jobs: map<Id, Job>,
    // history
    ever: map<Name, Claim>,           // every claim as it was created
    built: map<Name, Repository>)     // every repository as it was created

  datatype Action =
    | ClaimCreated(c: Claim)
    | ClaimDeleted(name: Name)
    | RepositoryDeleted(name: Name)   // dequeBackupRepositoryClaim
    | SyncStart(id: Id, view: Claim)
    | RepositoryGet(id: Id)
    | RepositoryCreate(id: Id, svc: Name)
    | ClaimPatch(id: Id, delivered: bool)
    | JobEnds(id: Id)                 // API error, restart, or done

  predicate Enabled(s: State, a: Action)
  {
    match a
    case ClaimCreated(c) => c.ref == "" && c.name !in s.ever && (forall n :: n in s.ever ==> s.ever[n].uid != c.uid)
    case ClaimDeleted(name) => name in s.claims
    case RepositoryDeleted(name) => name in s.repos
    case SyncStart(id, view) => id !in s.jobs && view in s.views
    case RepositoryGet(id) => id in s.jobs && s.jobs[id].Listed?
    case RepositoryCreate(id, _) => id in s.jobs && s.jobs[id].Missing?
    case ClaimPatch(id, _) => id in s.jobs && s.jobs[id].Bound?
    case JobEnds(id) => id in s.jobs
  }

  /** The patch carries the reference only if the copy showed another one. */
  function PatchedClaim(view: Claim, stored: Claim): (r: Claim)
  {
    if view.ref != RepositoryName(view) then stored.(ref := RepositoryName(view)) else stored
  }

  function Do(s: State, a: Action): (r: State)
    requires Enabled(s, a)
  {
    match a
    case ClaimCreated(c) => s.(claims := s.claims[c.name := c], views := s.views + {c}, ever := s.ever[c.name := c])
    case ClaimDeleted(name) => s.(claims := s.claims - {name})
    case RepositoryDeleted(name) => s.(repos := s.repos - {name})
    case SyncStart(id, view) => s.(jobs := s.jobs[id := Listed(view)])
    case RepositoryGet(id) =>
      var view := s.jobs[id].view;
      s.(jobs := s.jobs[id := if RepositoryName(view) in s.repos then Bound(view) else Missing(view)])
    case RepositoryCreate(id, svc) =>
      var view := s.jobs[id].view;
      var name := RepositoryName(view);
      if name in s.repos then s.(jobs := s.jobs - {id})   // already exists
      else
        var repo := Repository(view.name, view.params, view.namespaces, svc);
        s.(repos := s.repos[name := repo], built := s.built[name := repo], jobs := s.jobs[id := Bound(view)])
    case ClaimPatch(id, delivered) =>
      var view := s.jobs[id].view;
      var mutated := view.(ref := RepositoryName(view));
      // the copy is the lister's cached object itself
      var seen := s.(views := s.views + {mutated}, jobs := s.jobs - {id});
      if delivered && view.name in s.claims then
        var stored := PatchedClaim(view, s.claims[view.name]);
        seen.(claims := s.claims[view.name := stored], views := s.views + {mutated, stored})
      else seen
    case JobEnds(id) => s.(jobs := s.jobs - {id})
  }

  predicate Init(s: State) { s == State(map[], map[], {}, map[], map[], map[]) }

  ghost predicate Execution(states: seq<State>, acts: seq<Action>)
  {
    && |states| == |acts| + 1
    && Init(states[0])
    && forall i :: 0 <= i < |acts| ==> Enabled(states[i], acts[i]) && states[i + 1] == Do(states[i], acts[i])
  }

  /** One more step. */
  lemma Extended(states: seq<State>, acts: seq<Action>, a: Action) returns (states': seq<State>, acts': seq<Action>)
    requires Execution(states, acts) && Enabled(states[|acts|], a)
    ensures Execution(states', acts') && states'[|acts'|] == Do(states[|acts|], a)
    ensures states' == states + [Do(states[|acts|], a)] && acts' == acts + [a]
  {
    states', acts' := states + [Do(states[|acts|], a)], acts + [a];
  }

  // ---------------------------------------------------------------------------------------------
  // Invariant
  // ---------------------------------------------------------------------------------------------

  /** `c` is some stage of the claim created under its name, unbound or bound to its own repository. */
  predicate Genuine(ever: map<Name, Claim>, c: Claim)
  {
    c.name in ever && (c == ever[c.name] || c == ever[c.name].(ref := RepositoryName(ever[c.name])))
  }

  /** The repository was made for this claim from exactly its parameters and namespaces. */
  predicate MadeFor(c: Claim, name: Name, repo: Repository)
  {
    name == RepositoryName(c) && repo.claim == c.name && repo.params == c.params && repo.namespaces == c.namespaces
  }

  /** Claims are created unbound, under names and with UIDs that are not reused. */
  ghost predicate EverOk(ever: map<Name, Claim>)
  {
    && (forall n :: n in ever ==> ever[n].name == n && ever[n].ref == "")
    && (forall n, m :: n in ever && m in ever && ever[n].uid == ever[m].uid ==> n == m)
  }

  /** A stored claim is genuine, and its reference names a repository that was built. */
  predicate ClaimOk(ever: map<Name, Claim>, built: map<Name, Repository>, n: Name, c: Claim)
  {
    c.name == n && Genuine(ever, c) && (c.ref != "" ==> c.ref in built)
  }

  predicate JobOk(ever: map<Name, Claim>, built: map<Name, Repository>, j: Job)
  {
    Genuine(ever, j.view) && (j.Bound? ==> RepositoryName(j.view) in built)
  }

  predicate RepositoryOk(ever: map<Name, Claim>, name: Name, repo: Repository)
  {
    repo.claim in ever && MadeFor(ever[repo.claim], name, repo)
  }

  ghost predicate ClaimsOk(ever: map<Name, Claim>, built: map<Name, Repository>, claims: map<Name, Claim>)
  {
    forall n :: n in claims ==> ClaimOk(ever, built, n, claims[n])
  }

  ghost predicate JobsOk(ever: map<Name, Claim>, built: map<Name, Repository>, jobs: map<Id, Job>)
  {
    forall id :: id in jobs ==> JobOk(ever, built, jobs[id])
  }

  ghost predicate ViewsOk(ever: map<Name, Claim>, views: set<Claim>) { forall v :: v in views ==> Genuine(ever, v) }

  ghost predicate RepositoriesOk(ever: map<Name, Claim>, repos: map<Name, Repository>)
  {
    forall r :: r in repos ==> RepositoryOk(ever, r, repos[r])
  }

  ghost predicate ClaimInv(s: State)
  {
    && EverOk(s.ever)
    && ClaimsOk(s.ever, s.built, s.claims)
    && ViewsOk(s.ever, s.views)
    && JobsOk(s.ever, s.built, s.jobs)
    && RepositoriesOk(s.ever, s.built)
    && RepositoriesOk(s.ever, s.repos) && s.repos.Keys <= s.built.Keys
  }

  lemma GenuineStays(ever: map<Name, Claim>, c: Claim, x: Claim)
    requires EverOk(ever) && c.name !in ever && Genuine(ever, x)
    ensures x.name != c.name && Genuine(ever[c.name := c], x)
  {}

  lemma ClaimInvCreated(s: State, c: Claim)
    requires ClaimInv(s) && Enabled(s, ClaimCreated(c))
    ensures ClaimInv(Do(s, ClaimCreated(c)))
  {
    var ever := s.ever[c.name := c];
    forall n | n in s.claims ensures n != c.name && ClaimOk(ever, s.built, n, s.claims[n]) {
      assert ClaimOk(s.ever, s.built, n, s.claims[n]);
      GenuineStays(s.ever, c, s.claims[n]);
    }
    forall v | v in s.views ensures Genuine(ever, v) { GenuineStays(s.ever, c, v); }
    assert JobsOk(ever, s.built, s.jobs) by {
      forall id | id in s.jobs ensures JobOk(ever, s.built, s.jobs[id]) {
        assert JobOk(s.ever, s.built, s.jobs[id]);
        GenuineStays(s.ever, c, s.jobs[id].view);
      }
    }
    RepositoriesStay(s.ever, s.built, c);
    RepositoriesStay(s.ever, s.repos, c);
  }

  lemma RepositoriesStay(ever: map<Name, Claim>, repos: map<Name, Repository>, c: Claim)
    requires RepositoriesOk(ever, repos) && c.name !in ever
    ensures RepositoriesOk(ever[c.name := c], repos)
  {
    forall r | r in repos ensures RepositoryOk(ever[c.name := c], r, repos[r]) {
      assert RepositoryOk(ever, r, repos[r]);
    }
  }

  lemma ClaimInvBuilt(s: State, id: Id, svc: Name)
    requires ClaimInv(s) && Enabled(s, RepositoryCreate(id, svc))
    ensures ClaimInv(Do(s, RepositoryCreate(id, svc)))
  {
    var view := s.jobs[id].view;
    assert JobOk(s.ever, s.built, s.jobs[id]);
    var name, repo := RepositoryName(view), Repository(view.name, view.params, view.namespaces, svc);
    assert RepositoryOk(s.ever, name, repo);
    var built := s.built[name := repo];
    assert ClaimsOk(s.ever, built, s.claims) by {
      forall n | n in s.claims ensures ClaimOk(s.ever, built, n, s.claims[n]) {
        assert ClaimOk(s.ever, s.built, n, s.claims[n]);
      }
    }
    forall i | i in s.jobs ensures JobOk(s.ever, built, s.jobs[i]) { assert JobOk(s.ever, s.built, s.jobs[i]); }
  }

  lemma ClaimInvPatched(s: State, id: Id, delivered: bool)
    requires ClaimInv(s) && Enabled(s, ClaimPatch(id, delivered))
    ensures ClaimInv(Do(s, ClaimPatch(id, delivered)))
  {
    var view := s.jobs[id].view;
    assert JobOk(s.ever, s.built, s.jobs[id]);
    assert Genuine(s.ever, view.(ref := RepositoryName(view)));
    if view.name in s.claims {
      assert ClaimOk(s.ever, s.built, view.name, s.claims[view.name]);
      assert ClaimOk(s.ever, s.built, view.name, PatchedClaim(view, s.claims[view.name]));
    }
  }

  lemma ClaimInvStep(s: State, a: Action)
    requires ClaimInv(s) && Enabled(s, a)
    ensures ClaimInv(Do(s, a))
  {
    match a
    case ClaimCreated(c) => ClaimInvCreated(s, c);
    case RepositoryCreate(id, svc) => ClaimInvBuilt(s, id, svc);
    case ClaimPatch(id, delivered) => ClaimInvPatched(s, id, delivered);
    case RepositoryGet(id) => assert JobOk(s.ever, s.built, s.jobs[id]);
    case _ =>
  }

  lemma {:induction false} ClaimInvReached(states: seq<State>, acts: seq<Action>, i: nat)
    requires Execution(states, acts) && i < |states|
    ensures ClaimInv(states[i])
  {
    if i == 0 {
    } else {
      ClaimInvReached(states, acts, i - 1);
      ClaimInvStep(states[i - 1], acts[i - 1]);
    }
  }

  /** For any number of syncs, retries, restarts and stale reads: every repository was made for exactly one claim,
      under the name derived from its UID and from its parameters and namespaces, so no claim has two. */
  lemma OneRepositoryPerClaim(states: seq<State>, acts: seq<Action>, i: nat, r1: Name, r2: Name)
    requires Execution(states, acts) && i < |states| && r1 in states[i].repos && r2 in states[i].repos
    ensures states[i].repos[r1].claim in states[i].ever
    ensures MadeFor(states[i].ever[states[i].repos[r1].claim], r1, states[i].repos[r1])
    ensures states[i].repos[r1].claim == states[i].repos[r2].claim <==> r1 == r2
  {
    ClaimInvReached(states, acts, i);
    var s := states[i];
    assert RepositoryOk(s.ever, r1, s.repos[r1]) && RepositoryOk(s.ever, r2, s.repos[r2]);
    RepositoryNameInjective(s.ever[s.repos[r1].claim], s.ever[s.repos[r2].claim]);
  }

  /** A later value of the same claim: what was asked for is unchanged and a reference, once set, stays. */
  predicate Later(c: Claim, c': Claim)
  {
    c'.(ref := "") == c.(ref := "") && (c.ref != "" ==> c'.ref == c.ref)
  }

  lemma PatchIsLater(ever: map<Name, Claim>, view: Claim, stored: Claim)
    requires EverOk(ever) && Genuine(ever, view) && Genuine(ever, stored) && view.name == stored.name
    ensures Later(stored, PatchedClaim(view, stored))
  {}

  lemma PatchStep(s: State, id: Id, delivered: bool, n: Name)
    requires ClaimInv(s) && Enabled(s, ClaimPatch(id, delivered)) && n in s.claims
    ensures var claims := Do(s, ClaimPatch(id, delivered)).claims;
            n in claims && Later(s.claims[n], claims[n])
  {
    var view := s.jobs[id].view;
    assert JobOk(s.ever, s.built, s.jobs[id]) && ClaimOk(s.ever, s.built, n, s.claims[n]);
    if n == view.name { PatchIsLater(s.ever, view, s.claims[n]); }
  }

  lemma OtherStep(s: State, a: Action, n: Name)
    requires Enabled(s, a) && !a.ClaimPatch? && n in s.ever && n in Do(s, a).claims
    ensures n in s.claims && Do(s, a).claims[n] == s.claims[n]
  {}

  /** A claim that exists before and after a step is the same claim; a removed one does not come back. */
  lemma ClaimStep(s: State, a: Action, n: Name)
    requires ClaimInv(s) && Enabled(s, a) && n in s.ever && n in Do(s, a).claims
    ensures n in s.claims && Later(s.claims[n], Do(s, a).claims[n])
  {
    if !a.ClaimPatch? {
      OtherStep(s, a, n);
    } else if n in s.claims {
      PatchStep(s, a.id, a.delivered, n);
    }
  }

  lemma LaterIsTransitive(a: Claim, b: Claim, c: Claim)
    requires Later(a, b) && Later(b, c)
    ensures Later(a, c)
  {
    assert a.(ref := "") == c.(ref := "");
  }

  lemma {:induction false} EverGrows(states: seq<State>, acts: seq<Action>, i: nat, j: nat, n: Name)
    requires Execution(states, acts) && i <= j < |states| && n in states[i].ever
    ensures n in states[j].ever
    decreases j
  {
    if i == j {
    } else {
      EverGrows(states, acts, i, j - 1, n);
      assert Enabled(states[j - 1], acts[j - 1]) && states[j] == Do(states[j - 1], acts[j - 1]);
    }
  }

  lemma ClaimKnown(states: seq<State>, acts: seq<Action>, i: nat, n: Name)
    requires Execution(states, acts) && i < |states| && n in states[i].claims
    ensures n in states[i].ever
  {
    ClaimInvReached(states, acts, i);
    assert ClaimOk(states[i].ever, states[i].built, n, states[i].claims[n]);
  }

  lemma ClaimStepAt(states: seq<State>, acts: seq<Action>, j: nat, n: Name)
    requires Execution(states, acts) && j < |acts| && n in states[j].ever && n in states[j + 1].claims
    ensures n in states[j].claims && Later(states[j].claims[n], states[j + 1].claims[n])
  {
    ClaimInvReached(states, acts, j);
    ClaimStep(states[j], acts[j], n);
  }

  /** A claim's reference never changes once set, and what was asked for never changes at all. */
  lemma {:induction false} ReferenceIsStable(states: seq<State>, acts: seq<Action>, i: nat, j: nat, n: Name)
    requires Execution(states, acts) && i <= j < |states| && n in states[i].claims && n in states[j].claims
    ensures Later(states[i].claims[n], states[j].claims[n])
    decreases j
  {
    if i == j {
    } else {
      ClaimKnown(states, acts, i, n);
      EverGrows(states, acts, i, j - 1, n);
      ClaimStepAt(states, acts, j - 1, n);
      ReferenceIsStable(states, acts, i, j - 1, n);
      LaterIsTransitive(states[i].claims[n], states[j - 1].claims[n], states[j].claims[n]);
    }
  }

  /** A claim's reference is empty or "br-" and its UID, and then that repository was built, from the claim's own
      parameters and namespaces. */
  lemma ReferenceIsOwnRepository(states: seq<State>, acts: seq<Action>, i: nat, n: Name)
    requires Execution(states, acts) && i < |states| && n in states[i].claims && states[i].claims[n].ref != ""
    ensures var c := states[i].claims[n];
            && c.ref == "br-" + c.uid && c.ref in states[i].built
            && var repo := states[i].built[c.ref];
               repo.claim == n && repo.params == c.params && repo.namespaces == c.namespaces
  {
    ClaimInvReached(states, acts, i);
    var s := states[i];
    var c := s.claims[n];
    assert ClaimOk(s.ever, s.built, n, c) && RepositoryOk(s.ever, c.ref, s.built[c.ref]);
    RepositoryNameInjective(c, s.ever[s.built[c.ref].claim]);
  }

  lemma PatchBinds(ever: map<Name, Claim>, view: Claim, stored: Claim)
    requires EverOk(ever) && Genuine(ever, view) && Genuine(ever, stored) && view.name == stored.name
    ensures PatchedClaim(view, stored).ref == RepositoryName(view) <==> view.ref == "" || stored.ref != ""
  {}

  /** A delivered patch leaves the stored claim bound exactly if the sync's cached claim showed no reference or the
      stored one already has it. */
  lemma DeliveredPatchBindsIff(states: seq<State>, acts: seq<Action>, i: nat)
    requires Execution(states, acts) && i < |acts| && acts[i].ClaimPatch? && acts[i].delivered
    requires states[i].jobs[acts[i].id].view.name in states[i].claims
    ensures var view := states[i].jobs[acts[i].id].view;
            && view.name in states[i + 1].claims
            && var before, after := states[i].claims[view.name], states[i + 1].claims[view.name];
               after.ref == RepositoryName(view) <==> view.ref == "" || before.ref != ""
  {
    ClaimInvReached(states, acts, i);
    var s, id := states[i], acts[i].id;
    var view := s.jobs[id].view;
    assert JobOk(s.ever, s.built, s.jobs[id]) && ClaimOk(s.ever, s.built, view.name, s.claims[view.name]);
    PatchBinds(s.ever, view, s.claims[view.name]);
    assert Enabled(s, acts[i]) && states[i + 1] == Do(s, acts[i]);
  }

  /** A claim whose repository is built but which is not bound to it. */
  function Unbound(c: Claim, repo: Repository, views: set<Claim>, jobs: map<Id, Job>): (s: State)
  {
    var claims, repos := map[c.name := c], map[RepositoryName(c) := repo];
    State(claims, repos, views, jobs, claims, repos)
  }

  lemma FirstSyncLosesItsPatch(c: Claim) returns (states: seq<State>, acts: seq<Action>)
    requires c.ref == ""
    ensures Execution(states, acts)
    ensures var repo, view := Repository(c.name, c.params, c.namespaces, ""), c.(ref := RepositoryName(c));
            states[|acts|] == Unbound(c, repo, {c, view}, map[])
  {
    states, acts := Extended([State(map[], map[], {}, map[], map[], map[])], [], ClaimCreated(c));
    states, acts := Extended(states, acts, SyncStart(0, c));
    states, acts := Extended(states, acts, RepositoryGet(0));
    states, acts := Extended(states, acts, RepositoryCreate(0, ""));
    assert states[|acts|] == Unbound(c, Repository(c.name, c.params, c.namespaces, ""), {c}, map[0 := Bound(c)]);
    states, acts := Extended(states, acts, ClaimPatch(0, false));
  }

  /** The failing case is reachable: a sync whose patch is lost has already set the reference in the cached claim, so
      the next sync sends an empty patch, reports success and leaves the stored claim unbound. */
  lemma LostPatchHidesTheReference() returns (states: seq<State>, acts: seq<Action>, c: Claim)
    ensures Execution(states, acts) && |acts| > 0 && acts[|acts| - 1] == ClaimPatch(0, true)
    ensures c.name in states[|acts|].claims && states[|acts|].claims[c.name].ref == ""
  {
    c := Claim("brc", "uid", S3_DRIVER, map[], [], "");
    var view, repo := c.(ref := RepositoryName(c)), Repository(c.name, c.params, c.namespaces, "");
    states, acts := FirstSyncLosesItsPatch(c);
    states, acts := Extended(states, acts, SyncStart(0, view));
    states, acts := Extended(states, acts, RepositoryGet(0));
    assert states[|acts|] == Unbound(c, repo, {c, view}, map[0 := Bound(view)]);
    var last := Do(states[|acts|], ClaimPatch(0, true));
    states, acts := states + [last], acts + [ClaimPatch(0, true)];
  }

  // ---------------------------------------------------------------------------------------------
  // ClaimBackupRepository
  // ---------------------------------------------------------------------------------------------

  /** The claim asks for exactly this. */
  predicate Matches(driver: string, params: Params, namespaces: seq<string>, c: Claim)
  {
    c.params == params && c.driver == driver && c.namespaces == namespaces
  }

  method CompareBackupRepositoryClaim(driver: string, params: Params, namespaces: seq<string>, c: Claim)
    returns (equal: bool)
    ensures equal <==> params == c.params && driver == c.driver && namespaces == c.namespaces
  {
    if params != c.params { return false; }
    if driver != c.driver { return false; }
    return namespaces == c.namespaces;
  }

  /** The listed claims that match but are not bound yet. */
  function Waiting(driver: string, params: Params, namespaces: seq<string>, list: seq<Claim>): (r: set<Name>)
  {
    set c | c in list && Matches(driver, params, namespaces, c) && c.ref == "" :: c.name
  }

  predicate BoundMatch(driver: string, params: Params, namespaces: seq<string>, c: Claim)
  {
    Matches(driver, params, namespaces, c) && c.ref != ""
  }

  predicate Awaited(waiting: set<Name>, e: Claim) { e.name in waiting && e.ref != "" }

  /** What the call answers: the reference of the first listed claim that matches and is bound, else of the first
      observed bound claim among the ones waited for (the listed matching claims, or the new claim if there are none);
      None if the events end before. */
  ghost predicate Answer(driver: string, params: Params, namespaces: seq<string>, list: seq<Claim>, newClaim: Claim,
                         events: seq<Claim>, name: Option<Name>, creates: bool)
  {
    var bound := exists c :: c in list && BoundMatch(driver, params, namespaces, c);
    var waiting := if creates then {newClaim.name} else Waiting(driver, params, namespaces, list);
    && (creates <==> forall c :: c in list ==> !Matches(driver, params, namespaces, c))
    && (bound ==>
          exists i :: 0 <= i < |list| && BoundMatch(driver, params, namespaces, list[i]) && name == Some(list[i].ref)
                      && forall k :: 0 <= k < i ==> !BoundMatch(driver, params, namespaces, list[k]))
    && (!bound && name.Some? ==>
          exists i :: 0 <= i < |events| && Awaited(waiting, events[i]) && name == Some(events[i].ref)
                      && forall k :: 0 <= k < i ==> !Awaited(waiting, events[k]))
    && (!bound && name.None? ==> forall i :: 0 <= i < |events| ==> !Awaited(waiting, events[i]))
  }

  /** Look through the listed claims, create one if none matches, then follow the observed claims. */
  method ClaimBackupRepository(driver: string, params: Params, namespaces: seq<string>, list: seq<Claim>,
                               newClaim: Claim, events: seq<Claim>)
    returns (name: Option<Name>, creates: bool)
    ensures Answer(driver, params, namespaces, list, newClaim, events, name, creates)
  {
    var brcMap: map<Name, Claim> := map[];
    var i := 0;
    while i < |list|
      invariant 0 <= i <= |list|
      invariant forall k :: 0 <= k < i ==> !BoundMatch(driver, params, namespaces, list[k])
      invariant forall k :: 0 <= k < i && Matches(driver, params, namespaces, list[k]) ==> list[k].name in brcMap
      invariant brcMap.Keys == Waiting(driver, params, namespaces, list[..i])
    {
      var c := list[i];
      assert list[..i + 1] == list[..i] + [c];
      var equal := CompareBackupRepositoryClaim(driver, params, namespaces, c);
      if equal {
        if c.ref == "" {
          brcMap := brcMap[c.name := c];
        } else {
          assert c in list;
          return Some(c.ref), false;
        }
      }
      i := i + 1;
    }
    assert list[..|list|] == list;
    creates := brcMap == map[];
    if creates {
      brcMap := map[newClaim.name := newClaim];
    } else {
      var n :| n in brcMap;
    }
    i := 0;
    while i < |events|
      invariant 0 <= i <= |events|
      invariant forall k :: 0 <= k < i ==> !Awaited(brcMap.Keys, events[k])
    {
      var e := events[i];
      if e.ref != "" && e.name in brcMap {
        assert Awaited(brcMap.Keys, events[i]);
        return Some(e.ref), creates;
      }
      i := i + 1;
    }
    name := None;
  }

  /** `c` is a claim the server held at some time between i and j. */
  ghost predicate HeldBetween(states: seq<State>, i: nat, j: nat, c: Claim)
    requires i <= j < |states|
  {
    exists k :: i <= k <= j && c.name in states[k].claims && states[k].claims[c.name] == c
  }

  /** Built for this request. */
  predicate BuiltFor(params: Params, namespaces: seq<string>, built: map<Name, Repository>, r: Name)
  {
    r in built && built[r].params == params && built[r].namespaces == namespaces
  }

  lemma BuiltForLaterMatch(states: seq<State>, acts: seq<Action>, i: nat, k: nat, n: Name,
                           driver: string, params: Params, namespaces: seq<string>)
    requires Execution(states, acts) && i <= k < |states| && n in states[i].claims && n in states[k].claims
    requires Matches(driver, params, namespaces, states[i].claims[n]) && states[k].claims[n].ref != ""
    ensures BuiltFor(params, namespaces, states[k].built, states[k].claims[n].ref)
  {
    ReferenceIsStable(states, acts, i, k, n);
    ReferenceIsOwnRepository(states, acts, k, n);
  }

  lemma {:induction false} BuiltForStays(states: seq<State>, acts: seq<Action>, i: nat, j: nat, r: Name,
                                         params: Params, namespaces: seq<string>)
    requires Execution(states, acts) && i <= j < |states| && BuiltFor(params, namespaces, states[i].built, r)
    ensures BuiltFor(params, namespaces, states[j].built, r)
    decreases j
  {
    if i == j {
    } else {
      BuiltForStays(states, acts, i, j - 1, r, params, namespaces);
      ClaimInvReached(states, acts, j - 1);
      var s, a := states[j - 1], acts[j - 1];
      assert Enabled(s, a) && states[j] == Do(s, a);
      BuiltForStep(s, a, r, params, namespaces);
    }
  }

  lemma BuiltForStep(s: State, a: Action, r: Name, params: Params, namespaces: seq<string>)
    requires ClaimInv(s) && Enabled(s, a) && BuiltFor(params, namespaces, s.built, r)
    ensures BuiltFor(params, namespaces, Do(s, a).built, r)
  {
    if a.RepositoryCreate? {
      var view := s.jobs[a.id].view;
      assert JobOk(s.ever, s.built, s.jobs[a.id]) && RepositoryOk(s.ever, r, s.built[r]);
      RepositoryNameInjective(view, s.ever[s.built[r].claim]);
    }
  }

  /** A call that lists the server's claims at time i, creates its own claim (if it does) at some time in between
      and observes only values held from then on until j answers only with the name of a repository that was built
      with exactly the requested parameters and namespaces. */
  lemma ClaimedRepositoryIsAsRequested(states: seq<State>, acts: seq<Action>, i: nat, m: nat, j: nat,
                                       driver: string, params: Params, namespaces: seq<string>,
                                       list: seq<Claim>, newClaim: Claim, events: seq<Claim>, name: Name, creates: bool)
    requires Execution(states, acts) && i <= m <= j < |states|
    requires Answer(driver, params, namespaces, list, newClaim, events, Some(name), creates)
    requires forall c :: c in list ==> c.name in states[i].claims && states[i].claims[c.name] == c
    requires creates ==> newClaim.params == params && newClaim.namespaces == namespaces
                         && newClaim.name in states[m].claims && states[m].claims[newClaim.name] == newClaim
    requires forall e :: e in events ==> HeldBetween(states, m, j, e)
    ensures BuiltFor(params, namespaces, states[j].built, name)
  {
    if exists c :: c in list && BoundMatch(driver, params, namespaces, c) {
      var at :| 0 <= at < |list| && BoundMatch(driver, params, namespaces, list[at]) && name == list[at].ref;
      var c := list[at];
      BuiltForLaterMatch(states, acts, i, i, c.name, driver, params, namespaces);
      BuiltForStays(states, acts, i, j, name, params, namespaces);
    } else {
      var waiting := if creates then {newClaim.name} else Waiting(driver, params, namespaces, list);
      var at :| 0 <= at < |events| && Awaited(waiting, events[at]) && name == events[at].ref;
      var e := events[at];
      assert HeldBetween(states, m, j, e);
      var k :| m <= k <= j && e.name in states[k].claims && states[k].claims[e.name] == e;
      if creates {
        BuiltForLaterMatch(states, acts, m, k, e.name, newClaim.driver, params, namespaces);
      } else {
        BuiltForLaterMatch(states, acts, i, k, e.name, driver, params, namespaces);
      }
      BuiltForStays(states, acts, k, j, name, params, namespaces);
    }
  }
}
